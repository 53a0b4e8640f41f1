/** The suspicious-wallet scorer: five signals per wallet, a clamped score, a threshold,
    and the flagged wallets sorted by score, highest first. */
module SuspicionScorer {
  import opened Numeric
  import opened WalletModel
  import opened TemporalBurst
  import Sorting

  /** Why a wallet was flagged; the value each signal reports instead of a formatted message. */
  datatype Reason =
    | HighTemporalBurst(burst: real)
    | LargeTransactionSpikes(spikes: nat)
    | UnusualBalanceRatio(ratio: real)
    | HighCounterpartyOverlap(uniqueWallets: nat)
    | VeryHighTransactionCount(transactionCount: nat)

  /** What each triggered signal adds to the score. */
  function Weight(r: Reason): real {
    match r
    case HighTemporalBurst(_) => 0.3
    case LargeTransactionSpikes(_) => 0.25
    case UnusualBalanceRatio(_) => 0.2
    case HighCounterpartyOverlap(_) => 0.25
    case VeryHighTransactionCount(_) => 0.15
  }

  /** Position of the signal in the evaluation order. */
  function Rank(r: Reason): nat {
    match r
    case HighTemporalBurst(_) => 0
    case LargeTransactionSpikes(_) => 1
    case UnusualBalanceRatio(_) => 2
    case HighCounterpartyOverlap(_) => 3
    case VeryHighTransactionCount(_) => 4
  }

  datatype SuspiciousWallet = SuspiciousWallet(
    wallet: Wallet,
    suspicionScore: real,
    reasons: seq<Reason>,
    temporalBurst: real,
    largeTransactionSpikes: nat,
    unusualBalance: bool,
    highCounterpartyOverlap: nat)

  /** The two means computed once per call, over all wallets. */
  datatype Averages = Averages(txCount: real, balance: real)

  function Abs(x: real): real {
    if x < 0.0 then -x else x
  }

  function TxCounts(wallets: seq<Wallet>): seq<real> {
    seq(|wallets|, i requires 0 <= i < |wallets| => wallets[i].transactionCount as real)
  }

  function AbsBalances(wallets: seq<Wallet>): seq<real> {
    seq(|wallets|, i requires 0 <= i < |wallets| => Abs(wallets[i].netBalance))
  }

  /** Mean transaction count and mean absolute net balance. With no wallets the source
      divides by zero, but then no wallet is scored, so any value serves. */
  function GlobalAverages(wallets: seq<Wallet>): Averages {
    if wallets == [] then Averages(0.0, 0.0)
    else
      var n := |wallets| as real;
      Averages(Sum(TxCounts(wallets)) / n, Sum(AbsBalances(wallets)) / n)
  }

  /** `xs.filter(x => x > bound).length` */
  function CountAbove(xs: seq<real>, bound: real): (k: nat)
    ensures k <= |xs|
  {
    if xs == [] then 0
    else CountAbove(xs[..|xs| - 1], bound) + (if xs[|xs| - 1] > bound then 1 else 0)
  }

  /** Mean amount of the wallet's transactions, dividing by `length || 1`. */
  function MeanAmount(walletTxs: seq<Transaction>): real {
    Sum(Amounts(walletTxs)) / OrOne(|walletTxs| as real)
  }

  /** Transactions whose amount exceeds five times the wallet's mean amount. */
  function LargeSpikes(walletTxs: seq<Transaction>): nat {
    CountAbove(Amounts(walletTxs), MeanAmount(walletTxs) * 5.0)
  }

  /** The other side of a transaction, seen from wallet `id`. */
  function Counterparty(tx: Transaction, id: string): string {
    if tx.fromAddr == id then tx.toAddr else tx.fromAddr
  }

  function Counterparties(id: string, walletTxs: seq<Transaction>): set<string> {
    set i | 0 <= i < |walletTxs| :: Counterparty(walletTxs[i], id)
  }

  function BalanceRatio(w: Wallet, avgs: Averages): real {
    Abs(w.netBalance) / OrOne(avgs.balance)
  }

  function CounterpartyRatio(uniqueWallets: nat, walletCount: nat): real {
    (uniqueWallets as real) / OrOne(walletCount as real)
  }

  function TxCountRatio(w: Wallet, avgs: Averages): real {
    (w.transactionCount as real) / OrOne(avgs.txCount)
  }

  /** The raw values of the five signals for one wallet. */
  datatype Signals = Signals(
    burst: real,
    spikes: nat,
    balanceRatio: real,
    uniqueWallets: nat,
    counterpartyRatio: real,
    transactionCount: nat,
    txCountRatio: real)

  function SignalsOf(w: Wallet, txs: seq<Transaction>, walletCount: nat, avgs: Averages): Signals {
    var walletTxs := WalletTxs(w.id, txs);
    var uniqueWallets := |Counterparties(w.id, walletTxs)|;
    Signals(
      Burst(walletTxs),
      LargeSpikes(walletTxs),
      BalanceRatio(w, avgs),
      uniqueWallets,
      CounterpartyRatio(uniqueWallets, walletCount),
      w.transactionCount,
      TxCountRatio(w, avgs))
  }

  /** `reasons.push(r)` when `fired`. */
  function PushIf(rs: seq<Reason>, fired: bool, r: Reason): seq<Reason> {
    if fired then rs + [r] else rs
  }

  /** One reason per signal over its trigger level, in evaluation order. */
  function Triggered(s: Signals): seq<Reason> {
    var afterBalance := FirstThree(s);
    var afterOverlap := PushIf(afterBalance, s.counterpartyRatio > 0.3, HighCounterpartyOverlap(s.uniqueWallets));
    PushIf(afterOverlap, s.txCountRatio > 2.5, VeryHighTransactionCount(s.transactionCount))
  }

  /** Sum of the weights of the given reasons. */
  function TotalWeight(rs: seq<Reason>): real {
    if rs == [] then 0.0 else TotalWeight(rs[..|rs| - 1]) + Weight(rs[|rs| - 1])
  }

  /** The record the scorer builds for one wallet, whether or not it passes the threshold. */
  function Assess(w: Wallet, txs: seq<Transaction>, walletCount: nat, avgs: Averages): SuspiciousWallet {
    var s := SignalsOf(w, txs, walletCount, avgs);
    var reasons := Triggered(s);
    SuspiciousWallet(w, Min(TotalWeight(reasons), 1.0), reasons, s.burst, s.spikes,
                     s.balanceRatio > 3.0, s.uniqueWallets)
  }

  /** The per-wallet body of the scoring loop: each triggered signal adds its weight to
      `score` and appends its reason; the total is clamped to 1. */
  method ScoreWallet(w: Wallet, txs: seq<Transaction>, walletCount: nat, avgs: Averages)
    returns (sw: SuspiciousWallet)
    ensures sw == Assess(w, txs, walletCount, avgs)
    ensures 0.0 <= sw.suspicionScore <= 1.0
  {
    var walletTxs := WalletTxs(w.id, txs);
    var temporalBurst := CalculateTemporalBurst(walletTxs);
    var largeSpikes := LargeSpikes(walletTxs);
    var balanceRatio := BalanceRatio(w, avgs);
    var counterparties := Counterparties(w.id, walletTxs);
    var s := Signals(temporalBurst, largeSpikes, balanceRatio, |counterparties|,
                     CounterpartyRatio(|counterparties|, walletCount), w.transactionCount,
                     TxCountRatio(w, avgs));
    assert s == SignalsOf(w, txs, walletCount, avgs);
    var score, reasons := Score(s);
    sw := SuspiciousWallet(w, score, reasons, temporalBurst, largeSpikes, balanceRatio > 3.0,
                           |counterparties|);
  }

  /** The five threshold tests of the scoring loop, in order, on the signal values, and the
      clamp of the total to 1. */
  method Score(s: Signals) returns (score: real, reasons: seq<Reason>)
    ensures reasons == Triggered(s)
    ensures score == Min(TotalWeight(reasons), 1.0)
    ensures 0.0 <= score <= 1.0
  {
    reasons, score := [], 0.0;
    reasons, score := Flag(reasons, score, s.burst > 0.7, HighTemporalBurst(s.burst));
    reasons, score := Flag(reasons, score, s.spikes > 3, LargeTransactionSpikes(s.spikes));
    reasons, score := Flag(reasons, score, s.balanceRatio > 3.0, UnusualBalanceRatio(s.balanceRatio));
    reasons, score := Flag(reasons, score, s.counterpartyRatio > 0.3, HighCounterpartyOverlap(s.uniqueWallets));
    reasons, score := Flag(reasons, score, s.txCountRatio > 2.5, VeryHighTransactionCount(s.transactionCount));
    TotalWeightNonNegative(reasons);
    score := Min(score, 1.0);
  }

  /** One signal of the scoring loop: when it fires, its weight is added to `score` and its
      reason appended; the score stays the total weight of the reasons. */
  method Flag(reasons: seq<Reason>, score: real, fired: bool, r: Reason)
    returns (reasons': seq<Reason>, score': real)
    requires score == TotalWeight(reasons)
    ensures reasons' == PushIf(reasons, fired, r)
    ensures score' == TotalWeight(reasons')
  {
    reasons', score' := reasons, score;
    if fired {
      score' := score + Weight(r);
      reasons' := reasons + [r];
      PushWeight(reasons, r);
    }
  }

  /** The sum of the weights of the triggered signals, written out signal by signal. */
  function SignalWeight(s: Signals): real {
    (if s.burst > 0.7 then 0.3 else 0.0)
    + (if s.spikes > 3 then 0.25 else 0.0)
    + (if s.balanceRatio > 3.0 then 0.2 else 0.0)
    + (if s.counterpartyRatio > 0.3 then 0.25 else 0.0)
    + (if s.txCountRatio > 2.5 then 0.15 else 0.0)
  }

  lemma TriggeredWeight(s: Signals)
    ensures TotalWeight(Triggered(s)) == SignalWeight(s)
  {
    FirstThreeWeight(s);
    LastTwoWeight(FirstThree(s), s);
  }

  lemma LastTwoWeight(rs: seq<Reason>, s: Signals)
    ensures TotalWeight(PushIf(PushIf(rs, s.counterpartyRatio > 0.3, HighCounterpartyOverlap(s.uniqueWallets)),
                               s.txCountRatio > 2.5, VeryHighTransactionCount(s.transactionCount)))
      == TotalWeight(rs) + (if s.counterpartyRatio > 0.3 then 0.25 else 0.0)
         + (if s.txCountRatio > 2.5 then 0.15 else 0.0)
  {
    var r4 := PushIf(rs, s.counterpartyRatio > 0.3, HighCounterpartyOverlap(s.uniqueWallets));
    PushIfWeight(rs, s.counterpartyRatio > 0.3, HighCounterpartyOverlap(s.uniqueWallets));
    PushIfWeight(r4, s.txCountRatio > 2.5, VeryHighTransactionCount(s.transactionCount));
  }

  /** The reasons after the first three signals. */
  function FirstThree(s: Signals): seq<Reason> {
    var afterBurst := PushIf([], s.burst > 0.7, HighTemporalBurst(s.burst));
    var afterSpikes := PushIf(afterBurst, s.spikes > 3, LargeTransactionSpikes(s.spikes));
    PushIf(afterSpikes, s.balanceRatio > 3.0, UnusualBalanceRatio(s.balanceRatio))
  }

  lemma FirstThreeWeight(s: Signals)
    ensures TotalWeight(FirstThree(s)) == (if s.burst > 0.7 then 0.3 else 0.0)
      + (if s.spikes > 3 then 0.25 else 0.0) + (if s.balanceRatio > 3.0 then 0.2 else 0.0)
  {
    var r1 := PushIf([], s.burst > 0.7, HighTemporalBurst(s.burst));
    PushIfWeight([], s.burst > 0.7, HighTemporalBurst(s.burst));
    var r2 := PushIf(r1, s.spikes > 3, LargeTransactionSpikes(s.spikes));
    PushIfWeight(r1, s.spikes > 3, LargeTransactionSpikes(s.spikes));
    PushIfWeight(r2, s.balanceRatio > 3.0, UnusualBalanceRatio(s.balanceRatio));
  }

  lemma PushIfWeight(rs: seq<Reason>, fired: bool, r: Reason)
    ensures TotalWeight(PushIf(rs, fired, r)) == TotalWeight(rs) + (if fired then Weight(r) else 0.0)
  {
    if fired {
      assert (rs + [r])[..|rs|] == rs;
    }
  }

  lemma PushWeight(rs: seq<Reason>, r: Reason)
    ensures TotalWeight(rs + [r]) == TotalWeight(rs) + Weight(r)
  {
    assert (rs + [r])[..|rs|] == rs;
  }

  lemma {:induction false} TotalWeightNonNegative(rs: seq<Reason>)
    ensures TotalWeight(rs) >= 0.0
  {
    if rs != [] {
      TotalWeightNonNegative(rs[..|rs| - 1]);
    }
  }

  /** Every wallet's assessment, in input order. */
  function Assessments(ws: seq<Wallet>, txs: seq<Transaction>, walletCount: nat, avgs: Averages)
    : seq<SuspiciousWallet>
  {
    seq(|ws|, i requires 0 <= i < |ws| => Assess(ws[i], txs, walletCount, avgs))
  }

  /** The assessments, in order, whose score reaches the threshold. */
  function Kept(sws: seq<SuspiciousWallet>, threshold: real): seq<SuspiciousWallet> {
    if sws == [] then []
    else
      var last := sws[|sws| - 1];
      Kept(sws[..|sws| - 1], threshold) + (if last.suspicionScore >= threshold then [last] else [])
  }

  /** The comparator `(a, b) => b.suspicionScore - a.suspicionScore`. */
  function HigherScoreFirst(a: SuspiciousWallet, b: SuspiciousWallet): bool {
    a.suspicionScore >= b.suspicionScore
  }

  lemma HigherScoreFirstIsTotalPreorder()
    ensures Sorting.TotalPreorder(HigherScoreFirst)
  {
  }

  /** What `analyzeSuspiciousWallets` returns. */
  function Analysis(wallets: seq<Wallet>, txs: seq<Transaction>, threshold: real): seq<SuspiciousWallet> {
    Sorting.Sort(Kept(Assessments(wallets, txs, |wallets|, GlobalAverages(wallets)), threshold),
                 HigherScoreFirst)
  }

  /** `analyzeSuspiciousWallets`: scores every wallet in input order, keeps those with
      `score >= threshold`, and sorts them by descending score. */
  method AnalyzeSuspiciousWallets(wallets: seq<Wallet>, txs: seq<Transaction>, threshold: real)
    returns (result: seq<SuspiciousWallet>)
    ensures result == Analysis(wallets, txs, threshold)
    ensures |result| <= |wallets|
    ensures forall i :: 0 <= i < |result| ==> threshold <= result[i].suspicionScore <= 1.0
    ensures forall i, j :: 0 <= i < j < |result| ==> result[i].suspicionScore >= result[j].suspicionScore
  {
    var avgs := GlobalAverages(wallets);
    ghost var assessed := Assessments(wallets, txs, |wallets|, avgs);
    var suspicious: seq<SuspiciousWallet> := [];
    for i := 0 to |wallets|
      invariant suspicious == Kept(assessed[..i], threshold)
    {
      var sw := ScoreWallet(wallets[i], txs, |wallets|, avgs);
      KeptStep(assessed, i, threshold);
      if sw.suspicionScore >= threshold {
        suspicious := suspicious + [sw];
      }
    }
    assert assessed[..|wallets|] == assessed;
    result := Sorting.Sort(suspicious, HigherScoreFirst);
    AnalysisBounds(wallets, txs, threshold);
  }

  /** Every returned entry has `threshold <= suspicionScore <= 1`, there are no more entries
      than wallets, and the scores never increase along the result. */
  lemma AnalysisBounds(wallets: seq<Wallet>, txs: seq<Transaction>, threshold: real)
    ensures var result := Analysis(wallets, txs, threshold);
      && |result| <= |wallets|
      && (forall i :: 0 <= i < |result| ==> threshold <= result[i].suspicionScore <= 1.0)
      && (forall i, j :: 0 <= i < j < |result| ==> result[i].suspicionScore >= result[j].suspicionScore)
  {
    var assessed := Assessments(wallets, txs, |wallets|, GlobalAverages(wallets));
    var kept := Kept(assessed, threshold);
    var result := Sorting.Sort(kept, HigherScoreFirst);
    KeptBounds(assessed, threshold);
    AssessmentsScores(wallets, txs, |wallets|, GlobalAverages(wallets));
    HigherScoreFirstIsTotalPreorder();
    Sorting.SortSorted(kept, HigherScoreFirst);
    forall k | 0 <= k < |result| ensures threshold <= result[k].suspicionScore <= 1.0 {
      assert result[k] in multiset(kept);
    }
  }

  /** Every assessment's score lies in [0, 1]. */
  lemma AssessmentsScores(ws: seq<Wallet>, txs: seq<Transaction>, walletCount: nat, avgs: Averages)
    ensures forall i :: 0 <= i < |ws| ==>
      0.0 <= Assessments(ws, txs, walletCount, avgs)[i].suspicionScore <= 1.0
  {
    forall i | 0 <= i < |ws|
      ensures 0.0 <= Assessments(ws, txs, walletCount, avgs)[i].suspicionScore <= 1.0
    {
      AssessmentScore(ws[i], txs, walletCount, avgs);
    }
  }

  lemma KeptStep(sws: seq<SuspiciousWallet>, i: nat, threshold: real)
    requires i < |sws|
    ensures Kept(sws[..i + 1], threshold)
      == Kept(sws[..i], threshold) + (if sws[i].suspicionScore >= threshold then [sws[i]] else [])
  {
    assert sws[..i + 1][..i] == sws[..i];
  }

  /** The filter never lengthens its input, and what it keeps comes from the input and
      reaches the threshold. */
  lemma {:induction false} KeptBounds(sws: seq<SuspiciousWallet>, threshold: real)
    ensures |Kept(sws, threshold)| <= |sws|
    ensures forall k :: 0 <= k < |Kept(sws, threshold)| ==>
      Kept(sws, threshold)[k] in sws && threshold <= Kept(sws, threshold)[k].suspicionScore
  {
    if sws != [] {
      KeptBounds(sws[..|sws| - 1], threshold);
    }
  }

  /** The reasons appear in signal-evaluation order, at most one per signal. */
  predicate InSignalOrder(rs: seq<Reason>) {
    forall i, j :: 0 <= i < j < |rs| ==> Rank(rs[i]) < Rank(rs[j])
  }

  /** The signals the reasons stand for, in the order of the reasons. */
  function Ranks(rs: seq<Reason>): seq<nat> {
    seq(|rs|, i requires 0 <= i < |rs| => Rank(rs[i]))
  }

  /** The signals over their trigger levels, in evaluation order. */
  function FiredSignals(s: Signals): seq<nat> {
    (if s.burst > 0.7 then [0] else [])
    + (if s.spikes > 3 then [1] else [])
    + (if s.balanceRatio > 3.0 then [2] else [])
    + (if s.counterpartyRatio > 0.3 then [3] else [])
    + (if s.txCountRatio > 2.5 then [4] else [])
  }

  lemma PushIfRanks(rs: seq<Reason>, fired: bool, r: Reason)
    ensures Ranks(PushIf(rs, fired, r)) == Ranks(rs) + (if fired then [Rank(r)] else [])
  {
  }

  /** One reason per triggered signal and none for the others, in the fixed order
      burst, spikes, balance, counterparties, transaction count. */
  lemma TriggeredReasons(s: Signals)
    ensures Ranks(Triggered(s)) == FiredSignals(s)
    ensures InSignalOrder(Triggered(s))
  {
    TriggeredRanks(s);
    FiredSignalsIncreasing(s);
    var rs := Triggered(s);
    forall i, j | 0 <= i < j < |rs| ensures Rank(rs[i]) < Rank(rs[j]) {
      assert Ranks(rs)[i] == Rank(rs[i]) && Ranks(rs)[j] == Rank(rs[j]);
    }
  }

  lemma TriggeredRanks(s: Signals)
    ensures Ranks(Triggered(s)) == FiredSignals(s)
  {
    var r3 := FirstThree(s);
    FirstThreeRanks(s);
    var r4 := PushIf(r3, s.counterpartyRatio > 0.3, HighCounterpartyOverlap(s.uniqueWallets));
    PushIfRanks(r3, s.counterpartyRatio > 0.3, HighCounterpartyOverlap(s.uniqueWallets));
    PushIfRanks(r4, s.txCountRatio > 2.5, VeryHighTransactionCount(s.transactionCount));
  }

  lemma FirstThreeRanks(s: Signals)
    ensures Ranks(FirstThree(s)) == (if s.burst > 0.7 then [0] else [])
      + (if s.spikes > 3 then [1] else []) + (if s.balanceRatio > 3.0 then [2] else [])
  {
    var r1 := PushIf([], s.burst > 0.7, HighTemporalBurst(s.burst));
    PushIfRanks([], s.burst > 0.7, HighTemporalBurst(s.burst));
    var r2 := PushIf(r1, s.spikes > 3, LargeTransactionSpikes(s.spikes));
    PushIfRanks(r1, s.spikes > 3, LargeTransactionSpikes(s.spikes));
    PushIfRanks(r2, s.balanceRatio > 3.0, UnusualBalanceRatio(s.balanceRatio));
  }

  lemma FiredSignalsIncreasing(s: Signals)
    ensures var fired := FiredSignals(s);
      forall i, j :: 0 <= i < j < |fired| ==> fired[i] < fired[j]
  {
  }

  lemma FiredSignalsMembers(s: Signals)
    ensures |FiredSignals(s)| <= 5
    ensures 0 in FiredSignals(s) <==> s.burst > 0.7
    ensures 1 in FiredSignals(s) <==> s.spikes > 3
    ensures 2 in FiredSignals(s) <==> s.balanceRatio > 3.0
    ensures 3 in FiredSignals(s) <==> s.counterpartyRatio > 0.3
    ensures 4 in FiredSignals(s) <==> s.txCountRatio > 2.5
  {
  }

  /** Each of a wallet's reasons matches a signal over its trigger level; the reported raw
      values are those signals; `unusualBalance` is exactly `|netBalance| / (avgBalance || 1) > 3`. */
  lemma AssessmentReasons(w: Wallet, txs: seq<Transaction>, walletCount: nat, avgs: Averages)
    ensures var a := Assess(w, txs, walletCount, avgs);
      && a.wallet == w
      && InSignalOrder(a.reasons)
      && |a.reasons| <= 5
      && (0 in Ranks(a.reasons) <==> a.temporalBurst > 0.7)
      && (1 in Ranks(a.reasons) <==> a.largeTransactionSpikes > 3)
      && (2 in Ranks(a.reasons) <==> a.unusualBalance)
      && (a.unusualBalance <==> Abs(w.netBalance) / OrOne(avgs.balance) > 3.0)
      && (3 in Ranks(a.reasons) <==>
            (a.highCounterpartyOverlap as real) / OrOne(walletCount as real) > 0.3)
      && (4 in Ranks(a.reasons) <==>
            (w.transactionCount as real) / OrOne(avgs.txCount) > 2.5)
  {
    var s := SignalsOf(w, txs, walletCount, avgs);
    TriggeredReasons(s);
    FiredSignalsMembers(s);
    assert |Triggered(s)| == |Ranks(Triggered(s))|;
  }

  /** The score is `min(1, sum of the weights of the triggered signals)`; it is 0 exactly
      when no signal fires, and the clamp only bites when all five fire (1.15). */
  lemma AssessmentScore(w: Wallet, txs: seq<Transaction>, walletCount: nat, avgs: Averages)
    ensures var a := Assess(w, txs, walletCount, avgs);
      var s := SignalsOf(w, txs, walletCount, avgs);
      && a.suspicionScore == Min(1.0, SignalWeight(s))
      && 0.0 <= a.suspicionScore <= 1.0
      && (a.suspicionScore == 0.0 <==> a.reasons == [])
      && (SignalWeight(s) > 1.0 <==> |a.reasons| == 5)
  {
    var s := SignalsOf(w, txs, walletCount, avgs);
    TriggeredWeight(s);
    TriggeredCount(s);
  }

  lemma TriggeredCount(s: Signals)
    ensures |Triggered(s)| ==
      (if s.burst > 0.7 then 1 else 0) + (if s.spikes > 3 then 1 else 0)
      + (if s.balanceRatio > 3.0 then 1 else 0) + (if s.counterpartyRatio > 0.3 then 1 else 0)
      + (if s.txCountRatio > 2.5 then 1 else 0)
  {
  }

  /** Markov's bound for spikes: with non-negative amounts, a wallet with `k > 0` spikes
      above five times its mean amount has more than `5 * k` transactions, so the spike
      signal (`k > 3`) needs at least 21 of them. Spikes never outnumber the transactions. */
  lemma SpikesBound(walletTxs: seq<Transaction>)
    requires forall i :: 0 <= i < |walletTxs| ==> walletTxs[i].amount >= 0.0
    ensures LargeSpikes(walletTxs) <= |walletTxs|
    ensures LargeSpikes(walletTxs) == 0 || 5 * LargeSpikes(walletTxs) < |walletTxs|
  {
    var xs := Amounts(walletTxs);
    var k := LargeSpikes(walletTxs);
    if k > 0 {
      var n := |xs| as real;
      var total := Sum(xs);
      var bound := MeanAmount(walletTxs) * 5.0;
      var mean := MeanAmount(walletTxs);
      SumNonNegative(xs);
      assert n > 0.0;
      assert mean == total / n;
      assert mean * n == total;
      SumExceedsCountAbove(xs, bound);
      var kr := k as real;
      assert total > kr * bound;
      MarkovStep(n, total, kr, mean);
    }
  }

  /** `n` values with mean `mean` summing to `total > k * 5 * mean` number more than `5 * k`. */
  lemma MarkovStep(n: real, total: real, k: real, mean: real)
    requires n > 0.0 && mean * n == total && total > k * (mean * 5.0) && total >= 0.0
    ensures n > 5.0 * k
  {
    assert total > 0.0 || k * (mean * 5.0) < 0.0;
    if total > 0.0 {
      MultiplyPositive(n, total, k * (mean * 5.0));
      assert n * (k * (mean * 5.0)) == (5.0 * k) * total;
      DividePositive(n, 5.0 * k, total);
    }
  }

  lemma MultiplyPositive(c: real, a: real, b: real)
    requires c > 0.0 && a > b
    ensures c * a > c * b
  {
  }

  lemma DividePositive(a: real, b: real, t: real)
    requires t > 0.0 && a * t > b * t
    ensures a > b
  {
  }

  /** Non-negative values: those above `bound >= 0` add up to more than `count * bound`. */
  lemma {:induction false} SumExceedsCountAbove(xs: seq<real>, bound: real)
    requires forall i :: 0 <= i < |xs| ==> xs[i] >= 0.0
    requires bound >= 0.0
    ensures Sum(xs) >= (CountAbove(xs, bound) as real) * bound
    ensures CountAbove(xs, bound) > 0 ==> Sum(xs) > (CountAbove(xs, bound) as real) * bound
  {
    if xs != [] {
      SumExceedsCountAbove(xs[..|xs| - 1], bound);
    }
  }

  /** The counterparty set never has more members than the wallet has transactions;
      without self-transfers the wallet is never its own counterparty. */
  lemma {:induction false} CounterpartiesBound(id: string, walletTxs: seq<Transaction>)
    ensures |Counterparties(id, walletTxs)| <= |walletTxs|
    ensures (forall i :: 0 <= i < |walletTxs| ==>
               Involves(walletTxs[i], id) && walletTxs[i].fromAddr != walletTxs[i].toAddr)
            ==> (id !in Counterparties(id, walletTxs))
  {
    if walletTxs != [] {
      var front := walletTxs[..|walletTxs| - 1];
      CounterpartiesBound(id, front);
      var last := Counterparty(walletTxs[|walletTxs| - 1], id);
      assert Counterparties(id, walletTxs) == Counterparties(id, front) + {last} by {
        forall c | c in Counterparties(id, walletTxs) ensures c in Counterparties(id, front) + {last} {
          var i :| 0 <= i < |walletTxs| && c == Counterparty(walletTxs[i], id);
          if i < |walletTxs| - 1 {
            assert front[i] == walletTxs[i];
          }
        }
        forall c | c in Counterparties(id, front) ensures c in Counterparties(id, walletTxs) {
          var i :| 0 <= i < |front| && c == Counterparty(front[i], id);
          assert front[i] == walletTxs[i];
        }
      }
    }
  }

  /** The reported spike and counterparty counts never exceed the number of transactions
      that involve the wallet. */
  lemma AssessmentCounts(w: Wallet, txs: seq<Transaction>, walletCount: nat, avgs: Averages)
    ensures Assess(w, txs, walletCount, avgs).largeTransactionSpikes <= |WalletTxs(w.id, txs)|
    ensures Assess(w, txs, walletCount, avgs).highCounterpartyOverlap <= |WalletTxs(w.id, txs)|
  {
    CounterpartiesBound(w.id, WalletTxs(w.id, txs));
  }

  /** The filter keeps every copy of an entry that reaches the threshold and drops every
      copy of one that does not. */
  lemma {:induction false} KeptCount(sws: seq<SuspiciousWallet>, threshold: real, x: SuspiciousWallet)
    ensures multiset(Kept(sws, threshold))[x] == if x.suspicionScore >= threshold then multiset(sws)[x] else 0
  {
    if sws != [] {
      var front := sws[..|sws| - 1];
      KeptCount(front, threshold, x);
      assert sws == front + [sws[|sws| - 1]];
    }
  }

  /** An entry occurs among the assessments exactly when it is the assessment of one of
      the input wallets. */
  lemma AssessmentsMembers(ws: seq<Wallet>, txs: seq<Transaction>, walletCount: nat, avgs: Averages,
                           x: SuspiciousWallet)
    ensures x in Assessments(ws, txs, walletCount, avgs) <==>
      x.wallet in ws && x == Assess(x.wallet, txs, walletCount, avgs)
  {
    var assessed := Assessments(ws, txs, walletCount, avgs);
    if x in assessed {
      var i :| 0 <= i < |assessed| && assessed[i] == x;
      AssessedWallet(ws[i], txs, walletCount, avgs);
      assert ws[i] == x.wallet;
    }
    if x.wallet in ws && x == Assess(x.wallet, txs, walletCount, avgs) {
      var i :| 0 <= i < |ws| && ws[i] == x.wallet;
      assert assessed[i] == x;
    }
  }

  lemma AssessedWallet(w: Wallet, txs: seq<Transaction>, walletCount: nat, avgs: Averages)
    ensures Assess(w, txs, walletCount, avgs).wallet == w
  {
  }

  /** An entry occurs among the assessments no more often than its wallet occurs in the input. */
  lemma AssessmentsCount(ws: seq<Wallet>, txs: seq<Transaction>, walletCount: nat, avgs: Averages,
                         x: SuspiciousWallet)
    ensures multiset(Assessments(ws, txs, walletCount, avgs))[x] <= multiset(ws)[x.wallet]
  {
    var assessed := Assessments(ws, txs, walletCount, avgs);
    forall i | 0 <= i < |ws| ensures assessed[i].wallet == ws[i] {
      AssessedWallet(ws[i], txs, walletCount, avgs);
    }
    RecordsCount(assessed, ws, x);
  }

  /** Records made one per wallet, in order: a record occurs no more often than its wallet. */
  lemma {:induction false} RecordsCount(sws: seq<SuspiciousWallet>, ws: seq<Wallet>, x: SuspiciousWallet)
    requires |sws| == |ws|
    requires forall i :: 0 <= i < |ws| ==> sws[i].wallet == ws[i]
    ensures multiset(sws)[x] <= multiset(ws)[x.wallet]
  {
    if ws != [] {
      var n := |ws| - 1;
      RecordsCount(sws[..n], ws[..n], x);
      assert sws == sws[..n] + [sws[n]];
      assert ws == ws[..n] + [ws[n]];
    }
  }

  /** A wallet is in the result iff its score reaches the threshold, and each input wallet
      contributes at most as many entries as it occurs in the input. */
  lemma AnalysisMembers(wallets: seq<Wallet>, txs: seq<Transaction>, threshold: real, x: SuspiciousWallet)
    ensures x in Analysis(wallets, txs, threshold) <==>
      && x.wallet in wallets
      && x == Assess(x.wallet, txs, |wallets|, GlobalAverages(wallets))
      && x.suspicionScore >= threshold
    ensures multiset(Analysis(wallets, txs, threshold))[x] <= multiset(wallets)[x.wallet]
  {
    var assessed := Assessments(wallets, txs, |wallets|, GlobalAverages(wallets));
    AssessmentsMembers(wallets, txs, |wallets|, GlobalAverages(wallets), x);
    AssessmentsCount(wallets, txs, |wallets|, GlobalAverages(wallets), x);
    KeptCount(assessed, threshold, x);
    var kept := Kept(assessed, threshold);
    assert x in Analysis(wallets, txs, threshold) <==> x in multiset(kept);
  }

  lemma {:induction false} KeptMonotone(sws: seq<SuspiciousWallet>, low: real, high: real)
    requires low <= high
    ensures multiset(Kept(sws, high)) <= multiset(Kept(sws, low))
  {
    if sws != [] {
      KeptMonotone(sws[..|sws| - 1], low, high);
    }
  }

  /** Raising the threshold can only drop entries. */
  lemma ThresholdMonotone(wallets: seq<Wallet>, txs: seq<Transaction>, low: real, high: real)
    requires low <= high
    ensures multiset(Analysis(wallets, txs, high)) <= multiset(Analysis(wallets, txs, low))
  {
    KeptMonotone(Assessments(wallets, txs, |wallets|, GlobalAverages(wallets)), low, high);
  }

  /** Entries with equal scores keep the order in which their wallets were scored. */
  lemma AnalysisStable(wallets: seq<Wallet>, txs: seq<Transaction>, threshold: real, v: SuspiciousWallet)
    ensures Sorting.Ties(Analysis(wallets, txs, threshold), v, HigherScoreFirst)
         == Sorting.Ties(Kept(Assessments(wallets, txs, |wallets|, GlobalAverages(wallets)), threshold),
                         v, HigherScoreFirst)
  {
    HigherScoreFirstIsTotalPreorder();
    Sorting.SortStable(Kept(Assessments(wallets, txs, |wallets|, GlobalAverages(wallets)), threshold),
                       v, HigherScoreFirst);
  }

}
