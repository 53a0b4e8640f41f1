/** Precision, recall and F1 of the flagged wallets against a known set of suspicious ids. */
module EvaluationMetrics {
  import opened Numeric
  import opened SuspicionScorer

  datatype Evaluation = Evaluation(
    truePositives: nat,
    falsePositives: nat,
    falseNegatives: nat,
    precision: real,
    recall: real,
    f1Score: real)

  /** `new Set(suspiciousWallets.map(sw => sw.wallet.id))`. */
  function Predicted(sws: seq<SuspiciousWallet>): (r: set<string>)
    ensures forall i :: 0 <= i < |sws| ==> sws[i].wallet.id in r
    ensures forall id :: id in r ==> exists i :: 0 <= i < |sws| && sws[i].wallet.id == id
  {
    set i | 0 <= i < |sws| :: sws[i].wallet.id
  }

  /** `num / (den || 1)`. */
  function Ratio(num: nat, den: nat): real {
    (num as real) / OrOne(den as real)
  }

  /** `(2 * precision * recall) / (precision + recall || 1)`. */
  function F1(precision: real, recall: real): real {
    (2.0 * precision * recall) / OrOne(precision + recall)
  }

  /** The metrics as a function of the predicted and the known sets. */
  function Evaluate(predicted: set<string>, known: set<string>): Evaluation {
    var tp, fp, fn := |predicted * known|, |predicted - known|, |known - predicted|;
    var precision, recall := Ratio(tp, tp + fp), Ratio(tp, tp + fn);
    Evaluation(tp, fp, fn, precision, recall, F1(precision, recall))
  }

  /** `calculateEvaluationMetrics`: walks the predicted ids, then the known ids, counting. */
  method CalculateEvaluationMetrics(sws: seq<SuspiciousWallet>, known: set<string>)
    returns (e: Evaluation)
    ensures e == Evaluate(Predicted(sws), known)
  {
    var predicted := Predicted(sws);
    var truePositives, falsePositives := CountPredicted(predicted, known);
    var falseNegatives := CountMissed(known, predicted);
    var precision := Ratio(truePositives, truePositives + falsePositives);
    var recall := Ratio(truePositives, truePositives + falseNegatives);
    e := Evaluation(truePositives, falsePositives, falseNegatives, precision, recall, F1(precision, recall));
  }

  /** The first `forEach`: every predicted id is a hit when it is known, a false alarm
      otherwise. */
  method CountPredicted(predicted: set<string>, known: set<string>)
    returns (truePositives: nat, falsePositives: nat)
    ensures truePositives == |predicted * known| && falsePositives == |predicted - known|
  {
    truePositives, falsePositives := 0, 0;
    var rest := predicted;
    while rest != {}
      invariant rest <= predicted
      invariant truePositives == |(predicted - rest) * known|
      invariant falsePositives == |(predicted - rest) - known|
      decreases |rest|
    {
      var id :| id in rest;
      VisitOne(predicted, rest, id, known);
      if id in known {
        truePositives := truePositives + 1;
      } else {
        falsePositives := falsePositives + 1;
      }
      rest := rest - {id};
    }
    assert predicted - rest == predicted;
  }

  /** The second `forEach`: every known id that was not predicted is a miss. */
  method CountMissed(known: set<string>, predicted: set<string>) returns (falseNegatives: nat)
    ensures falseNegatives == |known - predicted|
  {
    falseNegatives := 0;
    var rest := known;
    while rest != {}
      invariant rest <= known
      invariant falseNegatives == |(known - rest) - predicted|
      decreases |rest|
    {
      var id :| id in rest;
      VisitOne(known, rest, id, predicted);
      if id !in predicted {
        falseNegatives := falseNegatives + 1;
      }
      rest := rest - {id};
    }
    assert known - rest == known;
  }

  /** Moving `id` from the unvisited to the visited part of `all` adds it to exactly one
      of the visited ids found in `other` and those not in `other`. */
  lemma VisitOne(all: set<string>, rest: set<string>, id: string, other: set<string>)
    requires rest <= all && id in rest
    ensures |(all - (rest - {id})) * other| == |(all - rest) * other| + (if id in other then 1 else 0)
    ensures |(all - (rest - {id})) - other| == |(all - rest) - other| + (if id in other then 0 else 1)
  {
    var visited := all - rest;
    assert all - (rest - {id}) == visited + {id};
    if id in other {
      assert (visited + {id}) * other == visited * other + {id};
      assert (visited + {id}) - other == visited - other;
    } else {
      assert (visited + {id}) * other == visited * other;
      assert (visited + {id}) - other == (visited - other) + {id};
    }
  }

  /** The counts partition the two sets: hits plus false alarms are the predictions,
      hits plus misses are the known ids. */
  lemma CountsPartition(predicted: set<string>, known: set<string>)
    ensures var e := Evaluate(predicted, known);
      && e.truePositives + e.falsePositives == |predicted|
      && e.truePositives + e.falseNegatives == |known|
  {
    assert predicted == (predicted * known) + (predicted - known);
    assert known == (predicted * known) + (known - predicted);
  }

  /** A ratio of a part to its whole lies in `[0, 1]`, is 0 exactly when the part is
      empty, and is 1 exactly when the part is the whole and not empty. */
  lemma RatioBounds(num: nat, den: nat)
    requires num <= den
    ensures 0.0 <= Ratio(num, den) <= 1.0
    ensures Ratio(num, den) == 0.0 <==> num == 0
    ensures Ratio(num, den) == 1.0 <==> num == den && den > 0
  {
    if den > 0 {
      DividePositive(num as real, den as real);
    }
  }

  lemma DividePositive(a: real, b: real)
    requires 0.0 <= a <= b && b > 0.0
    ensures 0.0 <= a / b <= 1.0
    ensures a / b == 0.0 <==> a == 0.0
    ensures a / b == 1.0 <==> a == b
  {
    assert a == (a / b) * b;
  }

  /** The F1 score of two ratios in `[0, 1]` is in `[0, 1]`, is 0 exactly when either is 0,
      and is 1 exactly when both are 1. */
  lemma F1Bounds(p: real, r: real)
    requires 0.0 <= p <= 1.0 && 0.0 <= r <= 1.0
    ensures 0.0 <= F1(p, r) <= 1.0
    ensures F1(p, r) == 0.0 <==> p == 0.0 || r == 0.0
    ensures F1(p, r) == 1.0 <==> p == 1.0 && r == 1.0
  {
    if p + r > 0.0 {
      HarmonicMean(p, r);
      DividePositive(2.0 * p * r, p + r);
      ZeroProduct(p, r);
      assert 2.0 * p * r == 2.0 * (p * r);
    }
  }

  /** `2pr <= p + r` on `[0, 1]`, with equality only at `p = r = 1` or `p = r = 0`. */
  lemma HarmonicMean(p: real, r: real)
    requires 0.0 <= p <= 1.0 && 0.0 <= r <= 1.0
    ensures 0.0 <= 2.0 * p * r <= p + r
    ensures 2.0 * p * r == p + r ==> p == r && (p == 0.0 || p == 1.0)
  {
    var a, b := p * (1.0 - r), r * (1.0 - p);
    NonNegativeProduct(p, 1.0 - r);
    NonNegativeProduct(r, 1.0 - p);
    NonNegativeProduct(p, r);
    assert p + r - 2.0 * p * r == a + b;
    if 2.0 * p * r == p + r {
      ZeroProduct(p, 1.0 - r);
      ZeroProduct(r, 1.0 - p);
    }
  }

  lemma NonNegativeProduct(x: real, y: real)
    requires x >= 0.0 && y >= 0.0
    ensures x * y >= 0.0
  {
  }

  lemma ZeroProduct(x: real, y: real)
    ensures x * y == 0.0 <==> x == 0.0 || y == 0.0
  {
  }

  /** Every metric lies in `[0, 1]`; a score is 0 exactly when no prediction is right. */
  lemma EvaluationBounds(predicted: set<string>, known: set<string>)
    ensures var e := Evaluate(predicted, known);
      && 0.0 <= e.precision <= 1.0
      && 0.0 <= e.recall <= 1.0
      && 0.0 <= e.f1Score <= 1.0
      && (e.f1Score == 0.0 <==> e.truePositives == 0)
  {
    var e := Evaluate(predicted, known);
    RatioBounds(e.truePositives, e.truePositives + e.falsePositives);
    RatioBounds(e.truePositives, e.truePositives + e.falseNegatives);
    F1Bounds(e.precision, e.recall);
  }

  /** A prediction that matches a non-empty known set exactly scores 1 everywhere; any
      other prediction has an F1 score below 1. */
  lemma PerfectPrediction(predicted: set<string>, known: set<string>)
    ensures Evaluate(predicted, known).f1Score == 1.0 <==> predicted == known && known != {}
  {
    PerfectCounts(predicted, known);
    SameSets(predicted, known);
  }

  /** F1 is 1 exactly when there are hits and neither false alarms nor misses. */
  lemma PerfectCounts(predicted: set<string>, known: set<string>)
    ensures var e := Evaluate(predicted, known);
      e.f1Score == 1.0 <==> e.truePositives > 0 && e.falsePositives == 0 && e.falseNegatives == 0
  {
    var e := Evaluate(predicted, known);
    RatioBounds(e.truePositives, e.truePositives + e.falsePositives);
    RatioBounds(e.truePositives, e.truePositives + e.falseNegatives);
    F1Bounds(e.precision, e.recall);
  }

  lemma SameSets(predicted: set<string>, known: set<string>)
    ensures |predicted * known| > 0 && |predicted - known| == 0 && |known - predicted| == 0
      <==> predicted == known && known != {}
  {
    if predicted == known && known != {} {
      assert predicted * known == known;
      assert predicted - known == {} && known - predicted == {};
    }
    if |predicted - known| == 0 && |known - predicted| == 0 {
      assert predicted - known == {} && known - predicted == {};
      assert forall x :: x in predicted ==> x !in predicted - known;
      assert forall x :: x in known ==> x !in known - predicted;
      assert predicted == known;
      if |predicted * known| > 0 {
        var x :| x in predicted * known;
      }
    }
  }

  /** With nothing predicted every metric is 0 and every known id is a miss. */
  lemma NothingPredicted(known: set<string>)
    ensures Evaluate({}, known) == Evaluation(0, 0, |known|, 0.0, 0.0, 0.0)
  {
    assert {} * known == {} && {} - known == {} && known - {} == known;
  }

  /** Predicting {A, B, C} against {A, B, D}: two hits, one false alarm, one miss, and
      precision, recall and F1 all two thirds. */
  lemma ThreeAgainstThree()
    ensures Evaluate({"A", "B", "C"}, {"A", "B", "D"}) == Evaluation(2, 1, 1, 2.0 / 3.0, 2.0 / 3.0, 2.0 / 3.0)
  {
    var p: set<string> := {"A", "B", "C"};
    var k: set<string> := {"A", "B", "D"};
    assert "A" != "B" && "A" != "C" && "A" != "D" && "B" != "C" && "B" != "D" && "C" != "D";
    assert p * k == {"A", "B"};
    assert p - k == {"C"};
    assert k - p == {"D"};
  }
}
