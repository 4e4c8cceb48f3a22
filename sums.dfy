/** Sums over binary unit states, as the RBM code accumulates them.

    A `bool` used in arithmetic counts as 0 or 1 (the source multiplies
    `bool` by `float` and adds `bool`s into `float` accumulators).  Every sum
    here runs left to right over a prefix, which is the order of the
    source's loops and of `std::inner_product`/`std::accumulate`. */
module Sums {

  /** The numeric value of a binary unit. */
  function B2R(b: bool): real
  {
    if b then 1.0 else 0.0
  }

  /** Σ_{k < n} b[k]·a[k]. */
  function DotTo(a: seq<real>, b: seq<bool>, n: nat): real
    requires n <= |a| && n <= |b|
  {
    if n == 0 then 0.0 else DotTo(a, b, n - 1) + B2R(b[n - 1]) * a[n - 1]
  }

  /** The inner product of real coefficients with a binary state. */
  function Dot(a: seq<real>, b: seq<bool>): real
    requires |a| == |b|
  {
    DotTo(a, b, |a|)
  }

  /** Number of set units among the first n. */
  function CountTo(b: seq<bool>, n: nat): nat
    requires n <= |b|
  {
    if n == 0 then 0 else CountTo(b, n - 1) + (if b[n - 1] then 1 else 0)
  }

  /** Number of set units. */
  function Count(b: seq<bool>): nat
  {
    CountTo(b, |b|)
  }

  /** Number of positions below n where two states differ. */
  function HammingTo(a: seq<bool>, b: seq<bool>, n: nat): nat
    requires n <= |a| && n <= |b|
  {
    if n == 0 then 0 else HammingTo(a, b, n - 1) + (if a[n - 1] != b[n - 1] then 1 else 0)
  }

  /** Hamming distance between two states of equal length. */
  function Hamming(a: seq<bool>, b: seq<bool>): nat
    requires |a| == |b|
  {
    HammingTo(a, b, |a|)
  }

  /** Element-wise negation of a coefficient vector. */
  function Negate(a: seq<real>): (r: seq<real>)
    ensures |r| == |a|
  {
    seq(|a|, k requires 0 <= k < |a| => -a[k])
  }

  /** Element-wise sum of two coefficient vectors. */
  function Add(a: seq<real>, c: seq<real>): (r: seq<real>)
    requires |a| == |c|
    ensures |r| == |a|
  {
    seq(|a|, k requires 0 <= k < |a| => a[k] + c[k])
  }

  /** Column j of a matrix given as rows. */
  function Column<T>(m: seq<seq<T>>, j: nat): (c: seq<T>)
    requires forall i :: 0 <= i < |m| ==> j < |m[i]|
    ensures |c| == |m|
  {
    seq(|m|, i requires 0 <= i < |m| => m[i][j])
  }

  /** A state with no unit set contributes nothing to an inner product. */
  lemma {:induction false} DotOfClearState(a: seq<real>, b: seq<bool>, n: nat)
    requires n <= |a| && n <= |b|
    requires forall k :: 0 <= k < |b| ==> !b[k]
    ensures DotTo(a, b, n) == 0.0
  {
    if n > 0 {
      DotOfClearState(a, b, n - 1);
    }
  }

  /** All-zero coefficients give a zero inner product with any state. */
  lemma {:induction false} DotOfZeroCoefficients(a: seq<real>, b: seq<bool>, n: nat)
    requires n <= |a| && n <= |b|
    requires forall k :: 0 <= k < |a| ==> a[k] == 0.0
    ensures DotTo(a, b, n) == 0.0
  {
    if n > 0 {
      DotOfZeroCoefficients(a, b, n - 1);
    }
  }

  /** The inner product is odd in its coefficients. */
  lemma {:induction false} DotOfNegated(a: seq<real>, b: seq<bool>, n: nat)
    requires n <= |a| && n <= |b|
    ensures DotTo(Negate(a), b, n) == -DotTo(a, b, n)
  {
    if n > 0 {
      DotOfNegated(a, b, n - 1);
    }
  }

  /** The inner product is additive in its coefficients. */
  lemma {:induction false} DotOfSum(a: seq<real>, c: seq<real>, b: seq<bool>, n: nat)
    requires |a| == |c| && n <= |a| && n <= |b|
    ensures DotTo(Add(a, c), b, n) == DotTo(a, b, n) + DotTo(c, b, n)
  {
    if n > 0 {
      DotOfSum(a, c, b, n - 1);
    }
  }

  /** The count of set units lies between 0 and the number of units, reaching
      the top exactly when every unit is set and 0 exactly when none is. */
  lemma {:induction false} CountBounds(b: seq<bool>, n: nat)
    requires n <= |b|
    ensures CountTo(b, n) <= n
    ensures CountTo(b, n) == n <==> forall k :: 0 <= k < n ==> b[k]
    ensures CountTo(b, n) == 0 <==> forall k :: 0 <= k < n ==> !b[k]
  {
    if n > 0 {
      CountBounds(b, n - 1);
    }
  }

  /** The Hamming distance is at most the length, and it is 0 exactly when
      the two states are equal. */
  lemma {:induction false} HammingBounds(a: seq<bool>, b: seq<bool>, n: nat)
    requires n <= |a| && n <= |b|
    ensures HammingTo(a, b, n) <= n
    ensures HammingTo(a, b, n) == 0 <==> a[..n] == b[..n]
  {
    if n > 0 {
      HammingBounds(a, b, n - 1);
      assert a[..n] == a[..n - 1] + [a[n - 1]];
      assert b[..n] == b[..n - 1] + [b[n - 1]];
      if a[..n] == b[..n] {
        assert a[..n - 1] == a[..n][..n - 1] && b[..n - 1] == b[..n][..n - 1];
        assert a[n - 1] == a[..n][n - 1] && b[n - 1] == b[..n][n - 1];
      }
    }
  }
}
