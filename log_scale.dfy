/** The data behind the log-scale chart: a wallet's daily balance series, clamped from
    below so that its logarithm is defined, and the aggregation of a daily series into
    weekly, monthly or yearly points, each the mean of the days it covers. */
module LogScale {
  import opened Numeric
  import opened Decimal
  import opened RandomDraws
  import opened Grouping
  import Sorting

  /** The smallest balance the chart plots: `Math.max(balance, 0.01)`. */
  const MinBalance: real := 0.01

  /** One wallet's inputs: its opening balance and what it receives and sends each day. */
  datatype Series = Series(start: real, received: seq<real>, sent: seq<real>)

  /** What `new Date(date)` reports for a date string: `getFullYear()` and `getDate()`. */
  datatype LocalDate = LocalDate(year: nat, day: nat)

  /** The chart's points: one date label and one value each. */
  datatype Points = Points(dates: seq<string>, values: seq<real>)

  /** `Math.random() * 100 + 10` for the opening balance, then `Math.random() * 5` for each
      day's receipts, then `Math.random() * 4` for each day's sends; `None` when the stream
      holds fewer than `1 + 2 * days` draws. */
  function DrawSeries(draws: seq<real>, days: nat): (r: Option<Series>)
    requires Draws(draws)
    ensures r.Some? <==> |draws| >= 1 + 2 * days
    ensures r.Some? ==> |r.value.received| == days && |r.value.sent| == days
    ensures r.Some? ==> 10.0 <= r.value.start < 110.0
    ensures r.Some? ==> forall i :: 0 <= i < days ==> 0.0 <= r.value.received[i] < 5.0 && 0.0 <= r.value.sent[i] < 4.0
  {
    if |draws| < 1 + 2 * days then None
    else
      Some(Series(draws[0] * 100.0 + 10.0,
                  seq(days, i requires 0 <= i < days => draws[1 + i] * 5.0),
                  seq(days, i requires 0 <= i < days => draws[1 + days + i] * 4.0)))
  }

  /** The running balance after day `i`: the opening balance plus every day's net flow up
      to and including day `i`, never clamped. */
  function Running(s: Series, i: nat): real
    requires |s.received| == |s.sent| && i < |s.received|
  {
    s.start + Sum(Net(s.received[..i + 1], s.sent[..i + 1]))
  }

  /** Each day's receipts minus its sends. */
  function Net(received: seq<real>, sent: seq<real>): (r: seq<real>)
    requires |received| == |sent|
    ensures |r| == |received|
  {
    seq(|received|, i requires 0 <= i < |received| => received[i] - sent[i])
  }

  /** The plotted balances: each day's running balance, raised to `MinBalance` when below it. */
  function Balances(s: Series): (r: seq<real>)
    requires |s.received| == |s.sent|
    ensures |r| == |s.received|
    ensures forall i :: 0 <= i < |r| ==> r[i] >= MinBalance
    ensures forall i :: 0 <= i < |r| ==> r[i] >= Running(s, i) && (Running(s, i) >= MinBalance ==> r[i] == Running(s, i))
  {
    seq(|s.received|, i requires 0 <= i < |s.received| => Max(Running(s, i), MinBalance))
  }

  /** `dates.map((_, i) => { balance += received[i] - sent[i]; return Math.max(balance, 0.01); })`:
      the plotted balances, and the running balance the loop ends with. */
  method RunningBalances(s: Series) returns (balances: seq<real>, balance: real)
    requires |s.received| == |s.sent|
    ensures balances == Balances(s)
    ensures balance == s.start + Sum(Net(s.received, s.sent))
  {
    balance := s.start;
    balances := [];
    for i := 0 to |s.received|
      invariant balance == s.start + Sum(Net(s.received[..i], s.sent[..i]))
      invariant balances == Balances(s)[..i]
    {
      balance := balance + (s.received[i] - s.sent[i]);
      NetStep(s.received, s.sent, i);
      balances := balances + [Max(balance, MinBalance)];
    }
    assert s.received[..|s.received|] == s.received && s.sent[..|s.sent|] == s.sent;
  }

  /** One more day adds its net flow to the running total. */
  lemma NetStep(received: seq<real>, sent: seq<real>, i: nat)
    requires |received| == |sent| && i < |received|
    ensures Sum(Net(received[..i + 1], sent[..i + 1])) == Sum(Net(received[..i], sent[..i])) + (received[i] - sent[i])
  {
    assert Net(received[..i + 1], sent[..i + 1])[..i] == Net(received[..i], sent[..i]);
  }

  /** The clamp is applied to what is plotted, not to the running balance: after a day that
      drives the balance below `0.01`, a later receipt starts from the negative balance. */
  lemma ClampNotCarried()
    ensures Balances(Series(1.0, [0.0, 5.0], [3.0, 0.0])) == [MinBalance, 3.0]
  {
    var s := Series(1.0, [0.0, 5.0], [3.0, 0.0]);
    assert Net(s.received[..1], s.sent[..1]) == [-3.0];
    assert Net(s.received[..2], s.sent[..2]) == [-3.0, 5.0];
    assert Sum([-3.0, 5.0]) == Sum([-3.0]) + 5.0;
    assert Running(s, 0) == -2.0;
    assert Running(s, 1) == 3.0;
  }

  /** `Math.ceil(day / 7)`: the week of the month a day falls in. */
  function WeekOfMonth(day: nat): (w: nat)
    ensures 7 * (w - 1) < day <= 7 * w
    ensures 1 <= day <= 31 ==> 1 <= w <= 5
  {
    (day + 6) / 7
  }

  /** `s.substring(0, n)`: the first `n` characters, or all of `s` when it is shorter. */
  function Prefix(s: string, n: nat): (r: string)
    ensures r <= s
    ensures |r| == if |s| < n then |s| else n
  {
    if |s| < n then s else s[..n]
  }

  /** The key a date is grouped under: `YYYY-W<week>` weekly, the first 7 characters
      (`YYYY-MM`) monthly, the first 4 (`YYYY`) yearly, and the date itself otherwise. */
  function FrameKey(date: string, local: LocalDate, frame: string): string {
    if frame == "Weekly" then NatToString(local.year) + "-W" + NatToString(WeekOfMonth(local.day))
    else if frame == "Monthly" then Prefix(date, 7)
    else if frame == "Yearly" then Prefix(date, 4)
    else date
  }

  /** The weekly key depends only on the year and the week of the month: days of different
      months of one year that share a week number are averaged together. */
  lemma WeeklyKeyIgnoresMonth(d1: string, l1: LocalDate, d2: string, l2: LocalDate)
    requires l1.year == l2.year && WeekOfMonth(l1.day) == WeekOfMonth(l2.day)
    ensures FrameKey(d1, l1, "Weekly") == FrameKey(d2, l2, "Weekly")
  {
  }

  function FrameKeys(dates: seq<string>, locals: seq<LocalDate>, frame: string): (r: seq<string>)
    requires |dates| == |locals|
    ensures |r| == |dates|
  {
    seq(|dates|, i requires 0 <= i < |dates| => FrameKey(dates[i], locals[i], frame))
  }

  /** JavaScript's default `sort()` order on strings: lexicographic by character code. */
  predicate LexLe(a: string, b: string) {
    if a == [] then true
    else if b == [] then false
    else if a[0] != b[0] then a[0] < b[0]
    else LexLe(a[1..], b[1..])
  }

  /** The mean of a group that has at least one day. */
  function GroupMean(keys: seq<string>, values: seq<real>, k: string): real
    requires |keys| == |values| && k in keys
  {
    PickedEmpty(keys, values, k);
    Sum(Picked(keys, values, k)) / (|Picked(keys, values, k)| as real)
  }

  /** `Object.keys(aggregated).sort()`: the distinct keys in string order. */
  function SortedKeys(keys: seq<string>): (ds: seq<string>)
    ensures |ds| <= |keys|
  {
    Sorting.Sort(Dedup(keys), LexLe)
  }

  /** The mean of each listed key's group. */
  function Means(keys: seq<string>, values: seq<real>, ds: seq<string>): (r: seq<real>)
    requires |keys| == |values| && forall k :: k in ds ==> k in keys
    ensures |r| == |ds|
  {
    seq(|ds|, j requires 0 <= j < |ds| => GroupMean(keys, values, ds[j]))
  }

  /** `aggregateData` as a function of its inputs: the daily series unchanged, or else the
      distinct keys in sorted order, each with the mean of the values of its days. */
  function Aggregation(dates: seq<string>, values: seq<real>, locals: seq<LocalDate>, frame: string): (p: Points)
    requires |dates| == |values| == |locals|
    ensures |p.dates| == |p.values| <= |dates|
  {
    if frame == "Daily" then Points(dates, values)
    else
      var keys := FrameKeys(dates, locals, frame);
      SortedKeysListed(keys);
      Points(SortedKeys(keys), Means(keys, values, SortedKeys(keys)))
  }

  /** `aggregateData(dates, values, frame)`. */
  method AggregateData(dates: seq<string>, values: seq<real>, locals: seq<LocalDate>, frame: string)
    returns (aggDates: seq<string>, aggValues: seq<real>)
    requires |dates| == |values| == |locals|
    ensures Points(aggDates, aggValues) == Aggregation(dates, values, locals, frame)
    ensures frame == "Daily" ==> aggDates == dates && aggValues == values
  {
    if frame == "Daily" {
      return dates, values;
    }
    var aggregated, order := GroupByKey(dates, values, locals, frame);
    ghost var keys := FrameKeys(dates, locals, frame);
    aggDates := Sorting.Sort(order, LexLe);
    assert aggDates == SortedKeys(keys);
    SortedKeysListed(keys);
    aggValues := [];
    for j := 0 to |aggDates|
      invariant |aggValues| == j
      invariant forall m :: 0 <= m < j ==> aggValues[m] == GroupMean(keys, values, aggDates[m])
    {
      var group := aggregated[aggDates[j]];
      PickedEmpty(keys, values, aggDates[j]);
      aggValues := aggValues + [Sum(group) / (|group| as real)];
    }
    assert aggValues == Means(keys, values, aggDates);
  }

  /** After the first `i` days: `order` lists their keys once each in first-appearance order,
      and the object holds exactly those keys, each with the values of its days so far. */
  ghost predicate Grouped(keys: seq<string>, values: seq<real>, i: nat,
                          aggregated: map<string, seq<real>>, order: seq<string>)
    requires |keys| == |values| && i <= |keys|
  {
    && order == Dedup(keys[..i])
    && (forall k :: k in aggregated <==> k in keys[..i])
    && (forall k :: k in aggregated ==> aggregated[k] == Picked(keys[..i], values[..i], k))
  }

  /** `dates.forEach((date, i) => { ...; aggregated[key].push(values[i]); })`: the values of
      each key's days, and the keys in insertion order. */
  method GroupByKey(dates: seq<string>, values: seq<real>, locals: seq<LocalDate>, frame: string)
    returns (aggregated: map<string, seq<real>>, order: seq<string>)
    requires |dates| == |values| == |locals|
    ensures order == Dedup(FrameKeys(dates, locals, frame))
    ensures forall k :: k in aggregated <==> k in FrameKeys(dates, locals, frame)
    ensures forall k :: k in aggregated ==> aggregated[k] == Picked(FrameKeys(dates, locals, frame), values, k)
  {
    aggregated, order := map[], [];
    ghost var keys := FrameKeys(dates, locals, frame);
    for i := 0 to |dates|
      invariant Grouped(keys, values, i, aggregated, order)
    {
      var key := dates[i];
      if frame == "Weekly" {
        key := NatToString(locals[i].year) + "-W" + NatToString(WeekOfMonth(locals[i].day));
      } else if frame == "Monthly" {
        key := Prefix(dates[i], 7);
      } else if frame == "Yearly" {
        key := Prefix(dates[i], 4);
      }
      assert key == keys[i];
      var group := if key in aggregated then aggregated[key] else [];
      GroupStep(keys, values, i, aggregated, order, aggregated[key := group + [values[i]]]);
      if key !in aggregated {
        order := order + [key];
      }
      aggregated := aggregated[key := group + [values[i]]];
    }
    GroupedAll(keys, values, aggregated, order);
  }

  /** The groups and the key order after one more day. */
  lemma GroupStep(keys: seq<string>, values: seq<real>, i: nat, aggregated: map<string, seq<real>>,
                  order: seq<string>, aggregated': map<string, seq<real>>)
    requires |keys| == |values| && i < |keys|
    requires Grouped(keys, values, i, aggregated, order)
    requires aggregated' == aggregated[keys[i] := (if keys[i] in aggregated then aggregated[keys[i]] else []) + [values[i]]]
    ensures Grouped(keys, values, i + 1, aggregated', if keys[i] in aggregated then order else order + [keys[i]])
  {
    var key := keys[i];
    assert keys[..i + 1] == keys[..i] + [key] && values[..i + 1] == values[..i] + [values[i]];
    DedupElements(keys[..i]);
    forall k | k in aggregated' ensures aggregated'[k] == Picked(keys[..i + 1], values[..i + 1], k) {
      PickedSnoc(keys[..i], values[..i], key, values[i], k);
      if k == key {
        PickedEmpty(keys[..i], values[..i], key);
      } else {
        assert Picked(keys[..i], values[..i], k) + [] == Picked(keys[..i], values[..i], k);
      }
    }
  }

  /** Once every day is in, the object's keys are those of the listed order. */
  lemma GroupedAll(keys: seq<string>, values: seq<real>, aggregated: map<string, seq<real>>, order: seq<string>)
    requires |keys| == |values| && Grouped(keys, values, |keys|, aggregated, order)
    ensures order == Dedup(keys)
    ensures forall k :: k in aggregated <==> k in keys
    ensures forall k :: k in aggregated ==> aggregated[k] == Picked(keys, values, k)
  {
    assert keys[..|keys|] == keys && values[..|keys|] == values;
  }

  /** The sorted keys are the distinct keys, each once. */
  lemma SortedKeysListed(keys: seq<string>)
    ensures Distinct(SortedKeys(keys))
    ensures forall k :: k in SortedKeys(keys) <==> k in keys
  {
    DedupElements(keys);
    DistinctReordered(Dedup(keys), SortedKeys(keys));
    assert forall k :: k in SortedKeys(keys) <==> k in multiset(Dedup(keys));
  }

  lemma {:induction false} LexTotal(a: string, b: string)
    ensures LexLe(a, b) || LexLe(b, a)
  {
    if a != [] && b != [] && a[0] == b[0] {
      LexTotal(a[1..], b[1..]);
    }
  }

  lemma {:induction false} LexTransitive(a: string, b: string, c: string)
    requires LexLe(a, b) && LexLe(b, c)
    ensures LexLe(a, c)
  {
    if a != [] && b != [] && c != [] && a[0] == b[0] == c[0] {
      LexTransitive(a[1..], b[1..], c[1..]);
    }
  }

  lemma {:induction false} LexAntisymmetric(a: string, b: string)
    requires LexLe(a, b) && LexLe(b, a)
    ensures a == b
  {
    if a != [] && b != [] {
      LexAntisymmetric(a[1..], b[1..]);
      assert a == [a[0]] + a[1..] && b == [b[0]] + b[1..];
    }
  }

  /** The string order is a total preorder, so the sort is well defined. */
  lemma LexTotalPreorder()
    ensures Sorting.TotalPreorder(LexLe)
  {
    forall a, b ensures LexLe(a, b) || LexLe(b, a) {
      LexTotal(a, b);
    }
    forall a, b, c | LexLe(a, b) && LexLe(b, c) ensures LexLe(a, c) {
      LexTransitive(a, b, c);
    }
  }

  /** The aggregated dates are strictly ascending, and they are exactly the keys of the days:
      every day belongs to exactly one point. */
  lemma AggregatedDatesAscending(dates: seq<string>, values: seq<real>, locals: seq<LocalDate>, frame: string)
    requires |dates| == |values| == |locals| && frame != "Daily"
    ensures var p := Aggregation(dates, values, locals, frame);
      && (forall i, j :: 0 <= i < j < |p.dates| ==> LexLe(p.dates[i], p.dates[j]) && p.dates[i] != p.dates[j])
      && (forall k :: k in p.dates <==> k in FrameKeys(dates, locals, frame))
  {
    var keys := FrameKeys(dates, locals, frame);
    LexTotalPreorder();
    Sorting.SortSorted(Dedup(keys), LexLe);
    SortedKeysListed(keys);
  }

  /** Each aggregated value is the mean of its group, so some day of the group has a value
      no larger and some day a value no smaller. */
  lemma AggregatedValuesAreMeans(dates: seq<string>, values: seq<real>, locals: seq<LocalDate>, frame: string)
    requires |dates| == |values| == |locals| && frame != "Daily"
    ensures var p, keys := Aggregation(dates, values, locals, frame), FrameKeys(dates, locals, frame);
      forall j :: 0 <= j < |p.dates| ==> exists a, b ::
        && 0 <= a < |dates| && 0 <= b < |dates| && keys[a] == p.dates[j] && keys[b] == p.dates[j]
        && values[a] <= p.values[j] <= values[b]
  {
    var p, keys := Aggregation(dates, values, locals, frame), FrameKeys(dates, locals, frame);
    SortedKeysListed(keys);
    forall j | 0 <= j < |p.dates| ensures exists a, b ::
        && 0 <= a < |dates| && 0 <= b < |dates| && keys[a] == p.dates[j] && keys[b] == p.dates[j]
        && values[a] <= p.values[j] <= values[b]
    {
      var a, b := GroupMeanWithin(keys, values, p.dates[j]);
    }
  }

  /** Days of the group holding its smallest and its largest value. */
  lemma GroupMeanWithin(keys: seq<string>, values: seq<real>, k: string) returns (a: nat, b: nat)
    requires |keys| == |values| && k in keys
    ensures a < |keys| && b < |keys| && keys[a] == k && keys[b] == k
    ensures values[a] <= GroupMean(keys, values, k) <= values[b]
  {
    var group := Picked(keys, values, k);
    PickedEmpty(keys, values, k);
    var m, n := MeanWithin(group);
    a := PickedOrigin(keys, values, k, m);
    b := PickedOrigin(keys, values, k, n);
  }

  /** The sizes of the groups behind the points add up to the number of days. */
  lemma GroupSizesSum(dates: seq<string>, values: seq<real>, locals: seq<LocalDate>, frame: string)
    requires |dates| == |values| == |locals| && frame != "Daily"
    ensures var keys := FrameKeys(dates, locals, frame);
      Sum(GroupSizes(Aggregation(dates, values, locals, frame).dates, keys, values)) == |dates| as real
  {
    var keys := FrameKeys(dates, locals, frame);
    SortedKeysListed(keys);
    GroupSizesCovering(SortedKeys(keys), keys, values);
  }

  /** Balances clamped to at least `0.01` stay so after aggregation, so their logarithm is
      defined in every time frame. */
  lemma AggregatedBalancesPositive(s: Series, dates: seq<string>, locals: seq<LocalDate>, frame: string)
    requires |s.received| == |s.sent| == |dates| == |locals|
    ensures var p := Aggregation(dates, Balances(s), locals, frame);
      forall j :: 0 <= j < |p.values| ==> p.values[j] >= MinBalance
  {
    if frame != "Daily" {
      AggregatedValuesAreMeans(dates, Balances(s), locals, frame);
    }
  }
}
