/** The summary the dashboard shows over the scorer's output. */
module AnalyticsSummary {
  import opened Numeric
  import opened SuspicionScorer

  datatype AnalyticsMetrics = AnalyticsMetrics(
    totalWallets: int,
    suspiciousWallets: nat,
    averageSuspicionScore: real,
    topSuspicious: seq<SuspiciousWallet>)

  function Scores(sws: seq<SuspiciousWallet>): (r: seq<real>)
    ensures |r| == |sws|
  {
    seq(|sws|, i requires 0 <= i < |sws| => sws[i].suspicionScore)
  }

  /** `getAnalyticsMetrics`: the mean score (dividing by `length || 1`) and the first five
      entries, unchanged and in the same order. */
  function GetAnalyticsMetrics(sws: seq<SuspiciousWallet>, totalWallets: int): (m: AnalyticsMetrics)
    ensures m.totalWallets == totalWallets && m.suspiciousWallets == |sws|
    ensures |m.topSuspicious| == if |sws| < 5 then |sws| else 5
    ensures forall i :: 0 <= i < |m.topSuspicious| ==> m.topSuspicious[i] == sws[i]
    ensures sws == [] ==> m.averageSuspicionScore == 0.0
  {
    var avgScore := Sum(Scores(sws)) / OrOne(|sws| as real);
    AnalyticsMetrics(totalWallets, |sws|, avgScore, sws[..if |sws| < 5 then |sws| else 5])
  }

  /** A mean of scores that all lie in `[lo, hi]` lies in `[lo, hi]` too; for the scorer's
      output that is `[threshold, 1]`. */
  lemma AverageWithinBounds(sws: seq<SuspiciousWallet>, totalWallets: int, lo: real, hi: real)
    requires sws != []
    requires forall i :: 0 <= i < |sws| ==> lo <= sws[i].suspicionScore <= hi
    ensures lo <= GetAnalyticsMetrics(sws, totalWallets).averageSuspicionScore <= hi
  {
    var xs := Scores(sws);
    assert forall i :: 0 <= i < |xs| ==> lo <= xs[i] <= hi;
    SumBetween(xs, lo, hi);
    assert OrOne(|sws| as real) == |xs| as real;
    MeanBetween(Sum(xs), |xs| as real, lo, hi);
  }

  /** The average times the number of entries is the sum of their scores. */
  lemma AverageTimesCount(sws: seq<SuspiciousWallet>, totalWallets: int)
    ensures GetAnalyticsMetrics(sws, totalWallets).averageSuspicionScore * (|sws| as real) == Sum(Scores(sws))
  {
    if sws != [] {
      var n := |sws| as real;
      assert OrOne(n) == n;
      DivideTimes(Sum(Scores(sws)), n);
    }
  }

  lemma DivideTimes(x: real, n: real)
    requires n != 0.0
    ensures (x / n) * n == x
  {
  }

  /** On the scorer's output, sorted by descending score, the top entries score at least
      as high as every entry left out of them. */
  lemma TopAreHighest(sws: seq<SuspiciousWallet>, totalWallets: int)
    requires forall i, j :: 0 <= i < j < |sws| ==> sws[i].suspicionScore >= sws[j].suspicionScore
    ensures var top := GetAnalyticsMetrics(sws, totalWallets).topSuspicious;
      forall i, j :: 0 <= i < |top| <= j < |sws| ==> top[i].suspicionScore >= sws[j].suspicionScore
  {
  }
}
