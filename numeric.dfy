/** Small arithmetic helpers shared by the analytics modules. */
module Numeric {

  /** JavaScript's `x || 1` on a number: a zero denominator is replaced by 1. */
  function OrOne(x: real): (r: real)
    ensures r != 0.0
    ensures x != 0.0 ==> r == x
  {
    if x == 0.0 then 1.0 else x
  }

  function Min(a: real, b: real): real {
    if a <= b then a else b
  }

  function Max(a: real, b: real): real {
    if a >= b then a else b
  }

  /** `xs.reduce((a, b) => a + b, 0)`: summed from the front, so the last element is added last. */
  function Sum(xs: seq<real>): real {
    if xs == [] then 0.0 else Sum(xs[..|xs| - 1]) + xs[|xs| - 1]
  }

  lemma {:induction false} SumAppend(a: seq<real>, b: seq<real>)
    ensures Sum(a + b) == Sum(a) + Sum(b)
  {
    if b == [] {
      assert a + b == a;
    } else {
      assert (a + b)[..|a + b| - 1] == a + b[..|b| - 1];
      SumAppend(a, b[..|b| - 1]);
    }
  }

  lemma {:induction false} SumNonNegative(xs: seq<real>)
    requires forall i :: 0 <= i < |xs| ==> xs[i] >= 0.0
    ensures Sum(xs) >= 0.0
  {
    if xs != [] {
      SumNonNegative(xs[..|xs| - 1]);
    }
  }

  /** Every element strictly below `bound` puts the sum strictly below `|xs| * bound`. */
  lemma {:induction false} SumBelow(xs: seq<real>, bound: real)
    requires xs != []
    requires forall i :: 0 <= i < |xs| ==> xs[i] < bound
    ensures Sum(xs) < (|xs| as real) * bound
  {
    if |xs| > 1 {
      SumBelow(xs[..|xs| - 1], bound);
    }
  }

  /** Elements between `lo` and `hi` give a sum between `|xs| * lo` and `|xs| * hi`. */
  lemma {:induction false} SumBetween(xs: seq<real>, lo: real, hi: real)
    requires forall i :: 0 <= i < |xs| ==> lo <= xs[i] <= hi
    ensures (|xs| as real) * lo <= Sum(xs) <= (|xs| as real) * hi
  {
    if xs != [] {
      SumBetween(xs[..|xs| - 1], lo, hi);
    }
  }

  /** A total between `n * lo` and `n * hi` puts the mean between `lo` and `hi`. */
  lemma MeanBetween(total: real, n: real, lo: real, hi: real)
    requires n > 0.0 && n * lo <= total <= n * hi
    ensures lo <= total / n <= hi
  {
    assert (total / n) * n == total;
  }

  /** A position holding the smallest element. */
  lemma {:induction false} SmallestAt(xs: seq<real>) returns (m: nat)
    requires xs != []
    ensures m < |xs| && forall i :: 0 <= i < |xs| ==> xs[m] <= xs[i]
  {
    if |xs| == 1 {
      m := 0;
    } else {
      m := SmallestAt(xs[..|xs| - 1]);
      assert forall i :: 0 <= i < |xs| - 1 ==> xs[..|xs| - 1][i] == xs[i];
      if xs[|xs| - 1] < xs[m] {
        m := |xs| - 1;
      }
    }
  }

  /** A position holding the largest element. */
  lemma {:induction false} LargestAt(xs: seq<real>) returns (m: nat)
    requires xs != []
    ensures m < |xs| && forall i :: 0 <= i < |xs| ==> xs[i] <= xs[m]
  {
    if |xs| == 1 {
      m := 0;
    } else {
      m := LargestAt(xs[..|xs| - 1]);
      assert forall i :: 0 <= i < |xs| - 1 ==> xs[..|xs| - 1][i] == xs[i];
      if xs[|xs| - 1] > xs[m] {
        m := |xs| - 1;
      }
    }
  }

  /** The mean of a non-empty list lies between its smallest and its largest element. */
  lemma MeanWithin(xs: seq<real>) returns (a: nat, b: nat)
    requires xs != []
    ensures a < |xs| && b < |xs| && xs[a] <= Sum(xs) / (|xs| as real) <= xs[b]
  {
    a := SmallestAt(xs);
    b := LargestAt(xs);
    SumBetween(xs, xs[a], xs[b]);
    MeanBetween(Sum(xs), |xs| as real, xs[a], xs[b]);
  }
}
