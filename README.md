# Wallet analytics: a verified Dafny model

This project models the computational core of a crypto-wallet analytics dashboard. It has four parts.

- **Suspicion scorer.** This is `analyzeSuspiciousWallets` with its helper `calculateTemporalBurst`.
  - Each wallet is checked against five signals in a fixed order: temporal burst, large transaction spikes, unusual balance ratio, counterparty overlap and transaction-count anomaly.
  - Each signal that fires adds a fixed weight and one reason. The total is clamped to 1.
  - Wallets scoring at least the threshold are kept, and the result is sorted by descending score.
  - Beside the scorer sit `getAnalyticsMetrics` (the mean score and the top five), `getTemporalActivity` (a per-interval histogram of one wallet's transactions) and `calculateEvaluationMetrics` (the confusion matrix and precision, recall and F1 against a known set of suspicious ids).
- **Synthetic ledger.** `generateWalletData` creates `count` wallets and `3 * count` transfers between distinct wallets. It books each transfer on both wallets and finally derives every net balance.
- **Sankey flow data.** `generateFlowData` draws 80 transfers among 30 wallets and sums them per ordered pair through the string key `from->to`. It then lays the result out as node labels plus parallel source, target and value arrays.
- **Log-scale chart data.** This is one wallet's daily balance series, a running sum clamped from below at 0.01. Beside it is `aggregateData`, which groups a daily series by week, month or year and plots each group's mean under sorted keys.

Randomness (`Math.random`) is an input. It is a finite sequence of draws in `[0, 1)` (module `RandomDraws`). A run that needs more draws than the sequence holds returns `None`. The rejection loops (`while (to === from)`) are modelled the same way. That is how the model states that a single-wallet ledger never finishes: every finite stream of draws runs out.

Language choices:
- Amounts are `real` and timestamps are `int` milliseconds.
- Reasons are a tagged datatype rather than formatted strings.
- JavaScript's `x || 1` guard is `Numeric.OrOne`.
- JavaScript's stable `Array.prototype.sort` is `Sorting.Sort`, a stable insertion sort. Every stable sort with a consistent comparator returns the same sequence, so the choice of algorithm does not matter.
- JavaScript `Map` and `Set` iteration order (insertion order) is `Grouping.Dedup`, the distinct elements in order of first appearance.

Imperative code stays imperative:
- The scorer's per-wallet loop, the gap loop, the bucket map, the TP/FP/FN counting loops, the generator's in-place wallet updates (an `array<Wallet>`), the Sankey rejection and aggregation loops, the running balance and the grouping dictionary are all methods with loops.
- Each such method is proved equal to a specification function.
- The properties are proved about those functions.

Modules: `Numeric`, `Sorting`, `Grouping`, `Decimal`, `RandomDraws`, `WalletModel`, `TemporalBurst`, `SuspicionScorer`, `AnalyticsSummary`, `TemporalActivity`, `EvaluationMetrics`, `WalletGenerator`, `SankeyFlow`, `LogScale`.

## Model

| member | source | states |
|---|---|---|
| WalletModel.WalletTxs | src/utils/suspiciousAnalytics.ts:39-41 | a transaction is kept exactly when it is in the input and the wallet is its sender or receiver, every copy of it is kept and no other; the result is no longer than the input |
| Sorting.Sort | src/utils/suspiciousAnalytics.ts:104 | the sorted sequence is a permutation of the input (same multiset, same length) |
| Sorting.SortSorted | src/utils/suspiciousAnalytics.ts:104 | for a total preorder comparator, the result is in comparator order |
| Sorting.SortStable | src/utils/suspiciousAnalytics.ts:104 | elements the comparator ranks equal keep their input order (the sort is stable) |
| TemporalBurst.CalculateTemporalBurst | src/utils/suspiciousAnalytics.ts:110-127 | the loop over sorted timestamps returns the burst fraction; it is 0 for fewer than two transactions and otherwise lies in `[0, 1)` |
| TemporalBurst.BurstOfSortedBounds | src/utils/suspiciousAnalytics.ts:118-126 | for sorted timestamps the share of gaps below a fifth of the mean gap lies in `[0, 1)`: not every gap can be that small |
| TemporalBurst.Gaps | src/utils/suspiciousAnalytics.ts:118-121 | a series of n ≥ 1 timestamps has n - 1 consecutive gaps |
| TemporalBurst.CountBelow | src/utils/suspiciousAnalytics.ts:124 | the number of gaps under the bound is at most the number of gaps, and equals it only if every gap is under the bound |
| TemporalBurst.SimultaneousTransactionsNoBurst | src/utils/suspiciousAnalytics.ts:110-127 | when all timestamps are equal the burst is 0, because no gap is below 0 |
| TemporalBurst.AscendingIsTotalPreorder | src/utils/suspiciousAnalytics.ts:115 | the comparator `a - b` is a total preorder, so the timestamp sort is well defined |
| SuspicionScorer.CountAbove | src/utils/suspiciousAnalytics.ts:52 | the number of amounts above the bound is at most the number of amounts |
| SuspicionScorer.Score | src/utils/suspiciousAnalytics.ts:36-89 | the five sequential checks yield exactly the triggered reasons, and a score that is the clamped total weight of those reasons, in `[0, 1]` |
| SuspicionScorer.Flag | src/utils/suspiciousAnalytics.ts:44-86 | one signal check appends its reason when it fires, and keeps the score equal to the total weight of the reasons so far |
| SuspicionScorer.ScoreWallet | src/utils/suspiciousAnalytics.ts:34-101 | the per-wallet record equals the specification `Assess`, and its score lies in `[0, 1]` |
| SuspicionScorer.AnalyzeSuspiciousWallets | src/utils/suspiciousAnalytics.ts:23-105 | the result equals the specification `Analysis`; it has at most one entry per input wallet, every score lies in `[threshold, 1]`, and scores do not increase along the result |
| SuspicionScorer.AnalysisBounds | src/utils/suspiciousAnalytics.ts:91-104 | every returned score lies in `[threshold, 1]`, the result is no longer than the wallet list, and it is sorted by non-increasing score |
| SuspicionScorer.AnalysisMembers | src/utils/suspiciousAnalytics.ts:34-101 | a record is returned iff its wallet is an input wallet, the record is that wallet's assessment, and its score reaches the threshold; a record occurs no more often than its wallet does in the input |
| SuspicionScorer.ThresholdMonotone | src/utils/suspiciousAnalytics.ts:91-101 | raising the threshold yields a sub-multiset of the previous result |
| SuspicionScorer.AnalysisStable | src/utils/suspiciousAnalytics.ts:104 | records with equal scores appear in the result in the same order as in the input wallet list |
| SuspicionScorer.HigherScoreFirstIsTotalPreorder | src/utils/suspiciousAnalytics.ts:104 | the comparator `b.suspicionScore - a.suspicionScore` is a total preorder |
| SuspicionScorer.TriggeredWeight | src/utils/suspiciousAnalytics.ts:44-86 | the weight of the triggered reasons is 0.3, 0.25, 0.2, 0.25 and 0.15 summed over the signals over their levels |
| SuspicionScorer.TriggeredReasons | src/utils/suspiciousAnalytics.ts:44-86 | the reasons are exactly the fired signals, one each, in the order burst, spikes, balance, counterparties, count |
| SuspicionScorer.FiredSignalsMembers | src/utils/suspiciousAnalytics.ts:44-86 | at most five signals fire, and each fires iff its value exceeds its level (burst > 0.7, spikes > 3, balance ratio > 3, counterparty ratio > 0.3, count ratio > 2.5) |
| SuspicionScorer.AssessmentReasons | src/utils/suspiciousAnalytics.ts:39-99 | a wallet's record carries the wallet, at most five reasons in signal order, one reason per fired signal (both directions), and `unusualBalance` iff `\|netBalance\| / (avgBalance \|\| 1) > 3` |
| SuspicionScorer.AssessmentScore | src/utils/suspiciousAnalytics.ts:36-89 | the score is `min(1, total weight)`, lies in `[0, 1]`, is 0 iff no reason fired, and is clamped iff all five fired |
| SuspicionScorer.TotalWeightNonNegative | src/utils/suspiciousAnalytics.ts:36-86 | the score before clamping is never negative |
| SuspicionScorer.AssessmentCounts | src/utils/suspiciousAnalytics.ts:52-99 | `largeTransactionSpikes` and `highCounterpartyOverlap` never exceed the wallet's number of transactions |
| SuspicionScorer.SpikesBound | src/utils/suspiciousAnalytics.ts:50-52 | with non-negative amounts, fewer than a fifth of a wallet's transactions can exceed five times its mean amount |
| SuspicionScorer.CounterpartiesBound | src/utils/suspiciousAnalytics.ts:69-71 | a wallet has no more counterparties than transactions, and never counts itself when no transaction is a self-transfer |
| SuspicionScorer.KeptCount | src/utils/suspiciousAnalytics.ts:91-101 | the threshold filter keeps every copy of a record scoring at least the threshold and drops every other |
| SuspicionScorer.AssessmentsMembers | src/utils/suspiciousAnalytics.ts:34-101 | the assessed records are exactly the assessments of the input wallets |
| AnalyticsSummary.GetAnalyticsMetrics | src/utils/suspiciousAnalytics.ts:132-146 | it reports the given total and the list's length; `topSuspicious` is the first `min(5, n)` entries unchanged; the mean is 0 for an empty list |
| AnalyticsSummary.AverageWithinBounds | src/utils/suspiciousAnalytics.ts:136-138 | for a non-empty list, the mean score lies between any lower and upper bound of the scores |
| AnalyticsSummary.AverageTimesCount | src/utils/suspiciousAnalytics.ts:136-138 | the mean times the number of entries is the sum of the scores (the arithmetic mean, also for an empty list) |
| AnalyticsSummary.TopAreHighest | src/utils/suspiciousAnalytics.ts:144 | on a list sorted by descending score, no entry left out of the top five scores higher than one kept |
| TemporalActivity.GetTemporalActivity | src/utils/suspiciousAnalytics.ts:151-181 | the buckets describe the wallet's transactions: strictly ascending interval-aligned starts, each bucket holding exactly the count and volume of the transactions in `[start, start + interval)`, every transaction in some bucket; no transactions give no buckets |
| TemporalActivity.TallyIntervals | src/utils/suspiciousAnalytics.ts:161-172 | after the loop the map holds, for each bucket key that has a transaction, the exact count and volume of the transactions in that bucket, and holds no other key; the key order lists each of its keys once |
| TemporalActivity.EntriesDescribe | src/utils/suspiciousAnalytics.ts:161-179 | the map's entries, before sorting, have distinct starts, each holding its interval's exact tally, and they cover every transaction |
| TemporalActivity.SortedEntriesDescribe | src/utils/suspiciousAnalytics.ts:180 | sorting such entries by start keeps them a faithful description and makes the starts strictly ascending |
| TemporalActivity.SortedStrictly | src/utils/suspiciousAnalytics.ts:180 | a sorted permutation of entries with distinct starts is strictly ascending |
| TemporalActivity.KeyBounds | src/utils/suspiciousAnalytics.ts:165 | a time lies in `[key * interval, key * interval + interval)` of its own bucket key |
| TemporalActivity.ActivityConserves | src/utils/suspiciousAnalytics.ts:163-180 | over all buckets, the counts sum to the number of transactions and the volumes to the sum of their amounts |
| TemporalActivity.TallySumCovers | src/utils/suspiciousAnalytics.ts:163-172 | tallying every transaction under a list of distinct keys that covers all of them counts each transaction exactly once |
| TemporalActivity.EarlierFirstIsTotalPreorder | src/utils/suspiciousAnalytics.ts:180 | the comparator `a.timestamp - b.timestamp` is a total preorder |
| EvaluationMetrics.Predicted | src/utils/suspiciousAnalytics.ts:197 | the predicted set holds exactly the ids of the flagged records |
| EvaluationMetrics.CountPredicted | src/utils/suspiciousAnalytics.ts:204-210 | the loop over predicted ids counts the ids that are known (`|predicted ∩ known|`) and those that are not (`|predicted - known|`) |
| EvaluationMetrics.CountMissed | src/utils/suspiciousAnalytics.ts:213-217 | the loop over known ids counts those not predicted (`|known - predicted|`) |
| EvaluationMetrics.CalculateEvaluationMetrics | src/utils/suspiciousAnalytics.ts:186-231 | the counts and ratios equal the specification `Evaluate` of the predicted ids against the known ids |
| EvaluationMetrics.CountsPartition | src/utils/suspiciousAnalytics.ts:204-217 | TP + FP is the number of distinct predicted ids and TP + FN the number of known ids |
| EvaluationMetrics.RatioBounds | src/utils/suspiciousAnalytics.ts:219-220 | a guarded ratio of a part to its whole lies in `[0, 1]`, is 0 iff the part is empty, and is 1 iff the part is the whole and non-empty |
| EvaluationMetrics.F1Bounds | src/utils/suspiciousAnalytics.ts:221 | F1 of two values in `[0, 1]` lies in `[0, 1]`, is 0 iff either is 0, and is 1 iff both are 1 |
| EvaluationMetrics.EvaluationBounds | src/utils/suspiciousAnalytics.ts:219-221 | precision, recall and F1 lie in `[0, 1]`, and F1 is 0 iff there is no true positive |
| EvaluationMetrics.PerfectPrediction | src/utils/suspiciousAnalytics.ts:219-221 | F1 is 1 iff the predicted ids are exactly the known ids and there is at least one |
| EvaluationMetrics.NothingPredicted | src/utils/suspiciousAnalytics.ts:197-221 | predicting nothing gives 0 TP, 0 FP, every known id a false negative, and all three ratios 0 |
| EvaluationMetrics.ThreeAgainstThree | src/utils/suspiciousAnalytics.ts:197-221 | predicted {A, B, C} against known {A, B, D} gives 2, 1, 1 and 2/3 for precision, recall and F1 |
| Decimal.NatToString | src/utils/generateWalletData.ts:10 | `String(i)` is a non-empty string of decimal digits |
| Decimal.NatToStringValue | src/utils/generateWalletData.ts:10 | reading the digits of `String(n)` back gives `n` |
| Decimal.PadStartShape | src/utils/generateWalletData.ts:10 | `padStart` ends with the original string and fills the front with the pad character up to the width |
| Decimal.PaddedInjective | src/utils/generateWalletData.ts:34 | equal zero-padded ids under one prefix come from equal numbers |
| Decimal.NamedInjective | src/components/SankeyFlowChart.tsx:8 | equal unpadded names under one prefix come from equal numbers |
| RandomDraws.DrawIndex | src/utils/generateWalletData.ts:21 | `Math.floor(r * count)` with `r` in `[0, 1)` is a valid index |
| RandomDraws.DrawOther | src/utils/generateWalletData.ts:22-26 | the rejection loop, when it finishes, returns a valid index different from the sender's, having used at least one draw |
| RandomDraws.OtherNeverFound | src/utils/generateWalletData.ts:22-26 | with a single wallet the rejection loop never finishes on any stream of draws |
| WalletGenerator.DrawDaysAgo | src/utils/generateWalletData.ts:29 | the age of a transfer is under 60 days |
| WalletGenerator.DrawTransfer | src/utils/generateWalletData.ts:21-29 | a drawn transfer joins two distinct valid wallets, has an amount in `[0.1, 10.1)` and an age under 60 days |
| WalletGenerator.DrawTransfers | src/utils/generateWalletData.ts:20-29 | a finished draw of n transfers has exactly n transfers and uses no more draws than there are |
| WalletGenerator.DrawnValid | src/utils/generateWalletData.ts:20-29 | every transfer of a finished run is valid: distinct valid ends, amount in range, age under 60 days |
| WalletGenerator.GenerateWalletData | src/utils/generateWalletData.ts:3-54 | the generator fails exactly when the draws run out, and otherwise returns the booked wallets and the ledger of the drawn transfers |
| WalletGenerator.BookTransfers | src/utils/generateWalletData.ts:19-46 | the transfer loop updates the wallet array in place to the accounts of the transfers drawn, and builds their ledger |
| WalletGenerator.TransferOnce | src/utils/generateWalletData.ts:21-45 | one iteration draws the next transfer, books it on both wallets, and appends its record, or fails when the draws run out |
| WalletGenerator.NextTransfer | src/utils/generateWalletData.ts:21-29 | the loop's draws of sender, receiver, amount and age give the transfer the specification draws |
| WalletGenerator.MakeRecord | src/utils/generateWalletData.ts:33-39 | the record carries the id `tx_` with the zero-padded index, both wallet ids, the amount rounded to six decimals, and the timestamp `now - daysAgo` days |
| WalletGenerator.BookTransfer | src/utils/generateWalletData.ts:42-45 | booking one transfer updates the wallet array to the accounts with that transfer added |
| WalletGenerator.OpenWallets | src/utils/generateWalletData.ts:8-16 | the new array holds `count` fresh wallets with all counters and totals at 0 |
| WalletGenerator.SettleBalances | src/utils/generateWalletData.ts:49-51 | the final pass sets every wallet's `netBalance` to its received minus sent total |
| WalletGenerator.BookedAt | src/utils/generateWalletData.ts:42-45 | a booking adds the amount to the sender's sent total and the receiver's received total, 1 to each count, and leaves every other wallet unchanged |
| WalletGenerator.AccountsAccrued | src/utils/generateWalletData.ts:42-45 | after booking any valid transfers, each wallet's totals are the sums of the unrounded amounts it sent and received and its count is its number of transfer ends |
| WalletGenerator.AccountsIds | src/utils/generateWalletData.ts:10 | wallet i's id is `wallet_` with i zero-padded to four digits, whatever is booked |
| WalletGenerator.UntouchedWallet | src/utils/generateWalletData.ts:42-45 | a wallet at neither end of any transfer keeps its id and all-zero counters and totals |
| WalletGenerator.TransactionCountsAddUp | src/utils/generateWalletData.ts:42-45 | the wallets' transaction counts add up to twice the number of transfers |
| WalletGenerator.NetBalancesCancel | src/utils/generateWalletData.ts:42-51 | the net balances of all wallets sum to 0 |
| WalletGenerator.CompletedRun | src/utils/generateWalletData.ts:3-54 | a finished run has `count` wallets and `3 * count` transactions, its counts add up to `6 * count`, and its net balances cancel |
| WalletGenerator.FailureStays | src/utils/generateWalletData.ts:20-46 | once the draws run out, no longer run can finish |
| WalletGenerator.SingleWalletNeverFinishes | src/utils/generateWalletData.ts:20-26 | with one wallet, the generator never finishes on any stream of draws |
| WalletGenerator.NoWalletsNoTransfers | src/utils/generateWalletData.ts:19-20 | with no wallets, no transfer is drawn and both lists are empty |
| WalletGenerator.IdsDistinct | src/utils/generateWalletData.ts:10 | different indices give different wallet ids and different transaction ids |
| WalletGenerator.LedgerRecords | src/utils/generateWalletData.ts:33-39 | the k-th record has id `tx_` and k, distinct sender and receiver ids, an amount within 5e-7 of the unrounded draw and within `[0.1, 10.1]`, and a timestamp at most 59 days before `now` |
| WalletGenerator.Round6Close | src/utils/generateWalletData.ts:37 | rounding to six decimals moves an amount by at most 5e-7 |
| WalletGenerator.Round6Range | src/utils/generateWalletData.ts:37 | a rounded amount from `[0.1, 10.1)` lies in `[0.1, 10.1]` |
| SankeyFlow.WalletNames | src/components/SankeyFlowChart.tsx:8 | there are thirty wallet names |
| SankeyFlow.SameNameSameIndex | src/components/SankeyFlowChart.tsx:8 | two wallet names are equal iff their indices are |
| SankeyFlow.NameHasNoArrow | src/components/SankeyFlowChart.tsx:8 | no wallet name contains `->` |
| SankeyFlow.PickReceiver | src/components/SankeyFlowChart.tsx:14-17 | the rejection loop, comparing names, returns the receiver the specification draws |
| SankeyFlow.NextFlow | src/components/SankeyFlowChart.tsx:13-20 | one iteration of the flow loop draws the flow the specification draws |
| SankeyFlow.DrawFlows | src/components/SankeyFlowChart.tsx:12-21 | a finished draw of n flows has exactly n flows and uses no more draws than there are |
| SankeyFlow.DrawFlowValid | src/components/SankeyFlowChart.tsx:13-20 | a drawn flow joins two different of the thirty wallets and has an amount in `[0.1, 5.1)` |
| SankeyFlow.DrawnFlowsValid | src/components/SankeyFlowChart.tsx:12-21 | every flow of a finished run is valid in that sense, and no name in it contains `->` |
| SankeyFlow.NoFlowStays | src/components/SankeyFlowChart.tsx:12-21 | once the draws run out, no longer run can finish |
| SankeyFlow.GenerateFlows | src/components/SankeyFlowChart.tsx:12-21 | the flow loop fails exactly when the draws run out, and otherwise returns the flows the specification draws |
| SankeyFlow.AggregateFlows | src/components/SankeyFlowChart.tsx:24-28 | the map holds one entry per distinct key, in first-appearance order, and each entry is the sum of the amounts of the flows with that key |
| SankeyFlow.KeysArePairs | src/components/SankeyFlowChart.tsx:26 | when names contain no `->`, distinct keys are exactly the distinct ordered pairs, and a key selects exactly the flows of its pair |
| SankeyFlow.SplitJoin | src/components/SankeyFlowChart.tsx:39 | splitting `from->to` on `->` gives back `[from, to]` when neither name contains `->` |
| SankeyFlow.ArrowInNameSplits | src/components/SankeyFlowChart.tsx:39 | a name containing `->` does not survive the round trip: the key splits into three parts |
| SankeyFlow.PairSplits | src/components/SankeyFlowChart.tsx:26-39 | the key of every pair in well-named flows splits back into that pair |
| SankeyFlow.EmitLinks | src/components/SankeyFlowChart.tsx:38-43 | the emit loop gives, for each key in map order, the indices of its two names and its summed amount, in three parallel arrays of equal length |
| SankeyFlow.GenerateFlowData | src/components/SankeyFlowChart.tsx:7-51 | the generator fails exactly when the draws run out, and otherwise returns the chart data the specification derives from the drawn flows |
| SankeyFlow.FlowDataOf | src/components/SankeyFlowChart.tsx:31-50 | the three link arrays have one entry per distinct ordered pair |
| SankeyFlow.LabelsAreWallets | src/components/SankeyFlowChart.tsx:31 | the labels are distinct, are exactly the wallets at either end of some flow, and are in order of first appearance |
| SankeyFlow.LinksWellFormed | src/components/SankeyFlowChart.tsx:31-43 | the links are distinct and cover every flow's pair; every index is valid in the labels and names that link's sender or receiver; no link is a loop |
| SankeyFlow.ValuesTotal | src/components/SankeyFlowChart.tsx:24-43 | the link values sum to the sum of all flow amounts |
| SankeyFlow.GeneratedLinks | src/components/SankeyFlowChart.tsx:7-50 | in generated data no link is a loop and every link value is at least 0.1 |
| Grouping.Dedup | src/components/SankeyFlowChart.tsx:31 | the distinct elements, in order of first appearance, as `Array.from(new Set(...))` gives them |
| Grouping.DedupElements | src/components/SankeyFlowChart.tsx:31 | the deduplicated list is distinct and has exactly the elements of the input |
| Grouping.DedupOrder | src/components/SankeyFlowChart.tsx:31 | the deduplicated elements are in order of their first appearance in the input |
| Grouping.GroupSumsTotal | src/components/SankeyFlowChart.tsx:24-28 | summing per distinct key and then over the keys gives the sum of all amounts |
| Grouping.GroupSizesCovering | src/components/LogScaleChart.tsx:53-66 | over distinct keys that cover every input key, the group sizes add up to the input length |
| Grouping.DistinctReordered | src/components/LogScaleChart.tsx:68 | a permutation of a distinct list is distinct |
| LogScale.DrawSeries | src/components/LogScaleChart.tsx:19-21 | the series can be drawn iff the stream holds `1 + 2 * days` draws; the opening balance lies in `[10, 110)`, receipts in `[0, 5)`, sends in `[0, 4)` |
| LogScale.Balances | src/components/LogScaleChart.tsx:22-25 | every plotted balance is at least 0.01 and at least the running balance, and equals the running balance whenever that is at least 0.01 |
| LogScale.RunningBalances | src/components/LogScaleChart.tsx:19-25 | the loop produces the clamped balances, and its final unclamped balance is the opening balance plus the sum of the daily net amounts |
| LogScale.ClampNotCarried | src/components/LogScaleChart.tsx:22-25 | the clamp acts on the output only: after a day clamped to 0.01, the next day continues from the negative running balance |
| LogScale.WeekOfMonth | src/components/LogScaleChart.tsx:57 | `ceil(day / 7)` is the week whose seven days contain the day, from 1 to 5 for days 1 to 31 |
| LogScale.WeeklyKeyIgnoresMonth | src/components/LogScaleChart.tsx:57 | the weekly key depends only on the year and the week of the month, so the same week of different months shares one group |
| LogScale.Prefix | src/components/LogScaleChart.tsx:59-61 | `substring(0, n)` is a prefix of the date string of length `min(n, length)` |
| LogScale.AggregateData | src/components/LogScaleChart.tsx:49-74 | the method returns the specification `Aggregation`; with `Daily` it returns its inputs unchanged |
| LogScale.GroupByKey | src/components/LogScaleChart.tsx:52-66 | the dictionary has exactly the keys that occur, and each holds the values of that key's days in input order |
| LogScale.SortedKeysListed | src/components/LogScaleChart.tsx:68 | the sorted keys are distinct and are exactly the keys that occur |
| LogScale.LexTotalPreorder | src/components/LogScaleChart.tsx:68 | the default string order of `sort()` is a total preorder |
| LogScale.LexAntisymmetric | src/components/LogScaleChart.tsx:68 | two strings each ordered before the other are equal |
| LogScale.AggregatedDatesAscending | src/components/LogScaleChart.tsx:68-73 | the output dates are strictly ascending in string order, and a key is an output date iff some input day has it |
| LogScale.AggregatedValuesAreMeans | src/components/LogScaleChart.tsx:64-71 | each output value lies between the smallest and the largest value of the days in its group |
| LogScale.GroupMeanWithin | src/components/LogScaleChart.tsx:69-71 | a group's mean lies between two of its own values |
| LogScale.GroupSizesSum | src/components/LogScaleChart.tsx:53-66 | every input day lands in exactly one output group: the group sizes add up to the number of days |
| LogScale.Aggregation | src/components/LogScaleChart.tsx:68-73 | the output has equally many dates and values, no more than there are input days |
| LogScale.AggregatedBalancesPositive | src/components/LogScaleChart.tsx:78 | aggregating the clamped balances gives only values of at least 0.01, so their logarithms are defined |
| Numeric.MeanWithin | src/components/LogScaleChart.tsx:70 | the mean of a non-empty list lies between two of its elements |
| Numeric.SumAppend | src/utils/suspiciousAnalytics.ts:31-32 | the `reduce` sum distributes over concatenation |

## Left out

- Rendering is not modelled. This covers JSX, hooks, Plotly and D3, the page components, and the log10 transform of the chart values (`src/components/LogScaleChart.tsx:81-83`), which is transcendental.
- Network fetches, polling, the price regression and extrapolation, and `src/utils/generateSampleData.ts` are not part of this model.
- `Math.random` is a finite input sequence of draws; no pseudo-random generator is modelled. A rejection loop that would run forever is a run that exhausts every finite stream.
- Dates and time zones are not modelled:
  - Timestamps are integer milliseconds, and a generated timestamp is `now - daysAgo * 86400000`. Daylight-saving shifts of `setDate` and the ISO-string conversion are ignored. The clock is read once per run (`now`), where the source calls `new Date()` in every iteration.
  - `Transaction.timestamp` is optional and numeric in `src/types/wallet.ts:17`, but the generator stores an ISO string. The model makes it a required `int`.
  - The weekly key reads `getFullYear()` and `getDate()` of `new Date(date)`. The model takes both as an input `LocalDate` per day. A parse in UTC read back in local time can shift the day; that is not modelled.
- The log-scale chart's own wallet names, its 365 generated date strings and the choice of one of its 20 wallets are not modelled. `LogScale.DrawSeries` models one wallet's draws and takes the date strings as input.
- Arithmetic is exact `real`:
  - JavaScript floating-point rounding, for example in `0.3 + 0.25 + …` near the threshold, is out of scope.
  - NaN paths are out of scope. With no wallets at all the two averages are NaN, but no wallet is then scored; the model's `GlobalAverages` returns 0 there.
- Reason strings formatted with `toFixed` are modelled as tagged values carrying the number they print.
- JavaScript compares strings by UTF-16 code units. The model compares Dafny `char`s, which agree for the ASCII date keys used here.
- `Object.keys` lists integer-like keys first. The keys are sorted right after, so the order is irrelevant and is not modelled.
- `aggregated.get(key) || 0` would also replace a stored sum of 0 by 0; that is the same value, so the model uses a plain lookup.
- `walletIndex.get(from)!` is modelled as a lookup that is proved to succeed (`SankeyFlow.LabelsAreWallets`, `SankeyFlow.LinksWellFormed`).
- `SankeyFlow.EmitLinks` requires every key to split into two known names. For generated data that is proved (`SankeyFlow.KeysArePairs`, `SankeyFlow.PairSplits`); for names containing `->` the source would look up an undefined wallet, which `SankeyFlow.ArrowInNameSplits` exhibits.
- `TemporalActivity.GetTemporalActivity` requires `intervalHours > 0`, and the interval is a whole number of hours (`nat`). The source accepts any number, including fractional hours; the default and the only value passed is 24. A zero interval makes the source divide by zero.
- `SuspicionScorer.SpikesBound` assumes non-negative amounts, as every generated amount is.
- `AnalyticsSummary.TopAreHighest` assumes its input is sorted by descending score, as `analyzeSuspiciousWallets` returns it.
