/** How clustered in time a wallet's transactions are: the fraction of gaps between
    consecutive (time-sorted) transactions that are shorter than a fifth of the mean gap. */
module TemporalBurst {
  import opened Numeric
  import opened WalletModel
  import Sorting

  /** The comparator `(a, b) => a - b`: ascending numeric order. */
  function Ascending(a: int, b: int): bool {
    a <= b
  }

  lemma AscendingIsTotalPreorder()
    ensures Sorting.TotalPreorder(Ascending)
  {
  }

  /** Differences between neighbouring timestamps. */
  function Gaps(ts: seq<int>): (g: seq<int>)
    ensures |ts| >= 1 ==> |g| == |ts| - 1
  {
    if |ts| == 0 then []
    else seq(|ts| - 1, i requires 0 <= i < |ts| - 1 => ts[i + 1] - ts[i])
  }

  function AsReals(xs: seq<int>): (r: seq<real>)
    ensures |r| == |xs|
  {
    seq(|xs|, i requires 0 <= i < |xs| => xs[i] as real)
  }

  /** `gaps.filter(gap => gap < bound).length` */
  function CountBelow(gaps: seq<int>, bound: real): (n: nat)
    ensures n <= |gaps|
    ensures n == |gaps| ==> forall i :: 0 <= i < |gaps| ==> (gaps[i] as real) < bound
  {
    if gaps == [] then 0
    else CountBelow(gaps[..|gaps| - 1], bound) + (if (gaps[|gaps| - 1] as real) < bound then 1 else 0)
  }

  /** The burst value of already sorted timestamps. */
  function BurstOfSorted(ts: seq<int>): real {
    if |ts| < 2 then 0.0
    else
      var gaps := Gaps(ts);
      var avgGap := Sum(AsReals(gaps)) / (|gaps| as real);
      (CountBelow(gaps, avgGap * 0.2) as real) / (|gaps| as real)
  }

  /** The burst value of a wallet's transactions. */
  function Burst(txs: seq<Transaction>): real {
    BurstOfSorted(Sorting.Sort(Timestamps(txs), Ascending))
  }

  /** With gaps that are never negative, not every gap can be below a fifth of their
      mean, so the burst fraction stays strictly below 1. */
  lemma {:induction false} BurstOfSortedBounds(ts: seq<int>)
    requires Sorting.Sorted(ts, Ascending)
    ensures 0.0 <= BurstOfSorted(ts) < 1.0
  {
    if |ts| >= 2 {
      var gaps := Gaps(ts);
      var xs := AsReals(gaps);
      var n := |gaps| as real;
      assert forall i :: 0 <= i < |xs| ==> xs[i] >= 0.0 by {
        forall i | 0 <= i < |xs| ensures xs[i] >= 0.0 {
          assert Ascending(ts[i], ts[i + 1]);
        }
      }
      SumNonNegative(xs);
      var total := Sum(xs);
      var avgGap := total / n;
      var small := CountBelow(gaps, avgGap * 0.2);
      if small == |gaps| {
        SumBelow(xs, avgGap * 0.2);
        FifthOfMean(total, n);
        assert false;
      }
      FractionBelowOne(small as real, n);
    }
  }

  lemma FractionBelowOne(k: real, n: real)
    requires 0.0 <= k < n
    ensures 0.0 <= k / n < 1.0
  {
    assert k / n * n == k;
  }

  /** A non-negative total is at least a fifth of itself: `n * (0.2 * total / n) <= total`. */
  lemma FifthOfMean(total: real, n: real)
    requires total >= 0.0 && n > 0.0
    ensures n * ((total / n) * 0.2) <= total
  {
    assert n * (total / n) == total;
    assert n * ((total / n) * 0.2) == (n * (total / n)) * 0.2;
  }

  /** `calculateTemporalBurst`: sorts the timestamps, collects the gaps in a loop, and
      returns the fraction of gaps below `0.2 * avgGap`; 0 for fewer than two transactions. */
  method CalculateTemporalBurst(txs: seq<Transaction>) returns (burst: real)
    ensures burst == Burst(txs)
    ensures 0.0 <= burst < 1.0
    ensures |txs| < 2 ==> burst == 0.0
  {
    AscendingIsTotalPreorder();
    var timestamps := Sorting.Sort(Timestamps(txs), Ascending);
    Sorting.SortSorted(Timestamps(txs), Ascending);
    BurstOfSortedBounds(timestamps);
    if |timestamps| < 2 {
      return 0.0;
    }
    var gaps: seq<int> := [];
    for i := 1 to |timestamps|
      invariant gaps == Gaps(timestamps)[..i - 1]
    {
      assert Gaps(timestamps)[..i] == Gaps(timestamps)[..i - 1] + [timestamps[i] - timestamps[i - 1]];
      gaps := gaps + [timestamps[i] - timestamps[i - 1]];
    }
    assert gaps == Gaps(timestamps);
    var avgGap := Sum(AsReals(gaps)) / (|gaps| as real);
    var smallGaps := CountBelow(gaps, avgGap * 0.2);
    burst := (smallGaps as real) / (|gaps| as real);
  }

  /** Timestamps that are all equal give only zero gaps, none of them below 0, so no burst. */
  lemma {:induction false} SimultaneousTransactionsNoBurst(txs: seq<Transaction>)
    requires forall i, j :: 0 <= i < |txs| && 0 <= j < |txs| ==> txs[i].timestamp == txs[j].timestamp
    ensures Burst(txs) == 0.0
  {
    var raw := Timestamps(txs);
    var ts := Sorting.Sort(raw, Ascending);
    if |ts| >= 2 {
      forall k | 0 <= k < |ts| ensures ts[k] == raw[0] {
        assert ts[k] in multiset(raw);
      }
      ConstantNoBurst(ts);
    }
  }

  lemma ConstantNoBurst(ts: seq<int>)
    requires |ts| >= 2
    requires forall k :: 0 <= k < |ts| ==> ts[k] == ts[0]
    ensures BurstOfSorted(ts) == 0.0
  {
    var gaps := Gaps(ts);
    var xs := AsReals(gaps);
    SumBetween(xs, 0.0, 0.0);
    ZeroGapsNoneBelowZero(gaps);
  }

  lemma {:induction false} ZeroGapsNoneBelowZero(gaps: seq<int>)
    requires forall i :: 0 <= i < |gaps| ==> gaps[i] == 0
    ensures CountBelow(gaps, 0.0) == 0
  {
    if gaps != [] {
      ZeroGapsNoneBelowZero(gaps[..|gaps| - 1]);
    }
  }
}
