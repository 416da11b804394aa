/** Exact arithmetic standing in for the floating-point helpers the summary
    code calls: math.fsum, math.ceil and the ceiling division used to lay out
    the table. Reals are exact, so the model has no rounding error. */
module Numeric {

  /** Sum of a sequence of reals (math.fsum, or a running `+=` total). */
  function Sum(s: seq<real>): real
  {
    if s == [] then 0.0 else Sum(s[..|s| - 1]) + s[|s| - 1]
  }

  lemma {:induction false} SumConcat(a: seq<real>, b: seq<real>)
    ensures Sum(a + b) == Sum(a) + Sum(b)
    decreases |b|
  {
    if b == [] {
      assert a + b == a;
    } else {
      SumConcat(a, b[..|b| - 1]);
      assert (a + b)[..|a + b| - 1] == a + b[..|b| - 1];
    }
  }

  /** A sum of n values that all lie in [lo, hi] lies in [n * lo, n * hi]. */
  lemma {:induction false} SumBounds(s: seq<real>, lo: real, hi: real)
    requires forall i :: 0 <= i < |s| ==> lo <= s[i] <= hi
    ensures (|s| as real) * lo <= Sum(s) <= (|s| as real) * hi
  {
    if s != [] {
      SumBounds(s[..|s| - 1], lo, hi);
    }
  }

  /** A sum of values that are all at least zero is at least zero. */
  lemma {:induction false} SumNonNegative(s: seq<real>)
    requires forall i :: 0 <= i < |s| ==> s[i] >= 0.0
    ensures Sum(s) >= 0.0
  {
    if s != [] {
      SumNonNegative(s[..|s| - 1]);
    }
  }

  /** The mean of values that all lie in [lo, hi] lies in [lo, hi]. */
  lemma MeanWithin(s: seq<real>, lo: real, hi: real)
    requires |s| >= 1
    requires forall i :: 0 <= i < |s| ==> lo <= s[i] <= hi
    ensures lo <= Sum(s) / (|s| as real) <= hi
  {
    var n := |s| as real;
    SumBounds(s, lo, hi);
    var m := Sum(s) / n;
    assert m * n == Sum(s);
    ScaleCompare(lo, m, n);
    ScaleCompare(m, hi, n);
  }

  /** math.ceil: the least integer that is not below x. */
  function Ceil(x: real): (c: int)
    ensures x <= c as real < x + 1.0
  {
    if x.Floor as real == x then x.Floor else x.Floor + 1
  }

  /** Ceiling division of naturals, as integer arithmetic. */
  function CeilDiv(n: nat, d: nat): (q: nat)
    requires d > 0
    ensures (q - 1) * d < n <= q * d
  {
    (n + d - 1) / d
  }

  /** The real-valued ceiling of n / d is the integer ceiling division:
      int(math.ceil(n / float(d))) computes CeilDiv(n, d) on exact reals. */
  lemma CeilOfRatio(n: nat, d: nat)
    requires d > 0
    ensures Ceil(n as real / d as real) == CeilDiv(n, d)
  {
    var q: int := CeilDiv(n, d);
    var x := n as real / d as real;
    RatioBetween(n, d, q - 1, x);
    RatioBetween(n, d, q, x);
    CeilUnique(x, q);
  }

  /** Comparing an integer k with n / d over the reals is comparing k * d
      with n over the integers. */
  lemma RatioBetween(n: nat, d: nat, k: int, x: real)
    requires d > 0 && x == n as real / d as real
    ensures k * d < n ==> k as real < x
    ensures n <= k * d ==> x <= k as real
  {
    var dr := d as real;
    assert x * dr == n as real;
    assert (k * d) as real == (k as real) * dr;
    ScaleCompare(x, k as real, dr);
    ScaleCompare(k as real, x, dr);
  }

  /** Ceil(x) is the only integer c with x <= c < x + 1. */
  lemma CeilUnique(x: real, c: int)
    requires x <= c as real < x + 1.0
    ensures Ceil(x) == c
  {
    var k := Ceil(x);
    assert (k - c) as real < 1.0 && (c - k) as real < 1.0;
  }

  /** For a positive scale c, comparing a * c with b * c compares a with b. */
  lemma ScaleCompare(a: real, b: real, c: real)
    requires c > 0.0
    ensures a * c <= b * c <==> a <= b
    ensures a * c < b * c <==> a < b
  {
    assert (b - a) * c == b * c - a * c;
  }
}
