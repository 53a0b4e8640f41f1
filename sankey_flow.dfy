/** `generateFlowData`: 80 random transfers among 30 named wallets, summed per ordered pair
    of wallets and laid out as the node labels and parallel link arrays of a Sankey diagram.
    `Math.random` is a finite stream of draws in `[0, 1)`; a run that needs more draws than
    the stream holds ends in `None`. */
module SankeyFlow {
  import opened Numeric
  import opened Decimal
  import opened RandomDraws
  import opened Grouping

  const WalletCount: nat := 30
  const FlowCount: nat := 80

  datatype Flow = Flow(from: string, to: string, amount: real)

  /** What the chart is given: node names, and for each link its two node indices and value. */
  datatype FlowData = FlowData(labels: seq<string>, sources: seq<nat>, targets: seq<nat>, values: seq<real>)

  /** `Wallet_${i + 1}`. */
  function WalletName(i: nat): string {
    "Wallet_" + NatToString(i + 1)
  }

  function WalletNames(): (r: seq<string>)
    ensures |r| == WalletCount
  {
    seq(WalletCount, i requires 0 <= i < WalletCount => WalletName(i))
  }

  /** `Math.random() * 5 + 0.1`. */
  function DrawFlowAmount(r: real): real {
    r * 5.0 + 0.1
  }

  /** One iteration of the flow loop: the sender, the receiver drawn until it differs from
      the sender, then the amount. */
  function DrawFlow(draws: seq<real>, pos: nat): (r: Option<(Flow, nat)>)
    requires Draws(draws)
    ensures r.Some? ==> pos < r.value.1 <= |draws|
  {
    if pos >= |draws| then None
    else
      var fromIndex := DrawIndex(draws[pos], WalletCount);
      match DrawOther(draws, pos + 1, fromIndex, WalletCount)
      case None => None
      case Some((toIndex, p)) =>
        if p >= |draws| then None
        else Some((Flow(WalletName(fromIndex), WalletName(toIndex), DrawFlowAmount(draws[p])), p + 1))
  }

  /** The first `n` flows, and the position of the next unused draw. */
  function DrawFlows(draws: seq<real>, n: nat): (r: Option<(seq<Flow>, nat)>)
    requires Draws(draws)
    ensures r.Some? ==> |r.value.0| == n && r.value.1 <= |draws|
  {
    if n == 0 then Some(([], 0))
    else
      match DrawFlows(draws, n - 1)
      case None => None
      case Some((fs, p)) =>
        match DrawFlow(draws, p)
        case None => None
        case Some((f, q)) => Some((fs + [f], q))
  }

  /** `${from}->${to}`: the key a pair of wallets is summed under. */
  function PairKey(p: (string, string)): string {
    p.0 + "->" + p.1
  }

  function Pair(f: Flow): (string, string) {
    (f.from, f.to)
  }

  function Amount(f: Flow): real {
    f.amount
  }

  function Pairs(flows: seq<Flow>): seq<(string, string)> {
    Map(flows, Pair)
  }

  function Keys(flows: seq<Flow>): seq<string> {
    Map(Pairs(flows), PairKey)
  }

  function Amounts(flows: seq<Flow>): seq<real> {
    Map(flows, Amount)
  }

  /** `flows.flatMap(f => [f.from, f.to])`. */
  function Ends(flows: seq<Flow>): (r: seq<string>)
    ensures |r| == 2 * |flows|
  {
    if flows == [] then []
    else Ends(flows[..|flows| - 1]) + [flows[|flows| - 1].from, flows[|flows| - 1].to]
  }

  /** `s` contains no `->`. */
  predicate NoArrow(s: string) {
    forall i :: 0 <= i < |s| - 1 ==> !(s[i] == '-' && s[i + 1] == '>')
  }

  /** The position of the first `->` in `s`, if any. */
  function ArrowIndex(s: string): (r: Option<nat>)
    ensures r.Some? ==> r.value + 2 <= |s| && s[r.value] == '-' && s[r.value + 1] == '>'
  {
    if |s| < 2 then None
    else if s[0] == '-' && s[1] == '>' then Some(0)
    else
      match ArrowIndex(s[1..])
      case None => None
      case Some(i) => Some(i + 1)
  }

  /** `s.split('->')`: the pieces between the occurrences of `->`, from left to right. */
  function SplitArrow(s: string): (parts: seq<string>)
    ensures |parts| >= 1
    decreases |s|
  {
    match ArrowIndex(s)
    case None => [s]
    case Some(i) => [s[..i]] + SplitArrow(s[i + 2..])
  }

  /** Every flow's names are free of `->`. */
  ghost predicate WellNamed(flows: seq<Flow>) {
    forall i :: 0 <= i < |flows| ==> NoArrow(flows[i].from) && NoArrow(flows[i].to)
  }

  /** The chart data as a function of the flows: the distinct names in order of first
      appearance, and for each distinct ordered pair, in order of first appearance, the
      positions of its two names and the sum of its amounts. */
  function FlowDataOf(flows: seq<Flow>): (d: FlowData)
    ensures |d.sources| == |d.targets| == |d.values| == |Dedup(Pairs(flows))|
  {
    var labels := Dedup(Ends(flows));
    var links := Dedup(Pairs(flows));
    LinkEndsListed(flows);
    FlowData(labels,
             seq(|links|, j requires 0 <= j < |links| => IndexOf(labels, links[j].0)),
             seq(|links|, j requires 0 <= j < |links| => IndexOf(labels, links[j].1)),
             GroupSums(links, Pairs(flows), Amounts(flows)))
  }

  /** `generateFlowData`. */
  method GenerateFlowData(draws: seq<real>) returns (r: Option<FlowData>)
    requires Draws(draws)
    ensures r.None? <==> DrawFlows(draws, FlowCount).None?
    ensures r.Some? ==> r.value == FlowDataOf(DrawFlows(draws, FlowCount).value.0)
  {
    var drawn := GenerateFlows(draws);
    if drawn.None? {
      return None;
    }
    var flows := drawn.value;
    DrawnFlowsValid(draws, FlowCount);
    var aggregated, order := AggregateFlows(flows);
    var labels := Dedup(Ends(flows));
    var walletIndex := map w | w in labels :: IndexOf(labels, w);
    OrderedLinks(flows, aggregated, order);
    var sources, targets, values := EmitLinks(order, aggregated, walletIndex);
    r := Some(FlowData(labels, sources, targets, values));
    LinksAsSpecified(flows, aggregated, order, walletIndex, r.value);
  }

  /** The flow loop: 80 iterations, each drawing a flow and pushing it. */
  method GenerateFlows(draws: seq<real>) returns (r: Option<seq<Flow>>)
    requires Draws(draws)
    ensures r.None? <==> DrawFlows(draws, FlowCount).None?
    ensures r.Some? ==> r.value == DrawFlows(draws, FlowCount).value.0
  {
    var flows: seq<Flow> := [];
    var pos: nat := 0;
    for i := 0 to FlowCount
      invariant DrawFlows(draws, i) == Some((flows, pos))
    {
      var next := NextFlow(draws, pos);
      if next.None? {
        NoFlowStays(draws, i + 1, FlowCount);
        return None;
      }
      flows := flows + [next.value.0];
      pos := next.value.1;
    }
    r := Some(flows);
  }

  /** One iteration: `wallets[Math.floor(Math.random() * wallets.length)]` for the sender,
      then the receiver, then the amount. */
  method NextFlow(draws: seq<real>, pos: nat) returns (r: Option<(Flow, nat)>)
    requires Draws(draws)
    ensures r == DrawFlow(draws, pos)
  {
    if pos >= |draws| {
      return None;
    }
    var wallets := WalletNames();
    var fromIndex := DrawIndex(draws[pos], |wallets|);
    var other := PickReceiver(draws, pos + 1, fromIndex);
    if other.None? || other.value.1 >= |draws| {
      return None;
    }
    var (toIndex, p) := other.value;
    var amount := DrawFlowAmount(draws[p]);
    return Some((Flow(wallets[fromIndex], wallets[toIndex], amount), p + 1));
  }

  /** `let to = pick(); while (to === from) to = pick();`: the names are compared, which is
      the same as comparing indices since no two wallets share a name. */
  method PickReceiver(draws: seq<real>, pos: nat, fromIndex: nat) returns (r: Option<(nat, nat)>)
    requires Draws(draws) && fromIndex < WalletCount
    ensures r == DrawOther(draws, pos, fromIndex, WalletCount)
  {
    if pos >= |draws| {
      return None;
    }
    var wallets := WalletNames();
    var from := wallets[fromIndex];
    var toIndex := DrawIndex(draws[pos], |wallets|);
    var to := wallets[toIndex];
    var p := pos + 1;
    SameNameSameIndex(toIndex, fromIndex);
    while to == from
      invariant pos < p <= |draws| && toIndex < WalletCount && (to == from <==> toIndex == fromIndex)
      invariant DrawOther(draws, pos, fromIndex, WalletCount)
        == if toIndex == fromIndex then DrawOther(draws, p, fromIndex, WalletCount) else Some((toIndex, p))
      decreases |draws| - p
    {
      if p >= |draws| {
        return None;
      }
      toIndex := DrawIndex(draws[p], |wallets|);
      to := wallets[toIndex];
      SameNameSameIndex(toIndex, fromIndex);
      p := p + 1;
    }
    return Some((toIndex, p));
  }

  /** Two of the thirty wallets have the same name exactly when they are the same wallet. */
  lemma SameNameSameIndex(i: nat, j: nat)
    requires i < WalletCount && j < WalletCount
    ensures WalletNames()[i] == WalletNames()[j] <==> i == j
  {
    if WalletNames()[i] == WalletNames()[j] {
      NamedInjective("Wallet_", i + 1, j + 1);
    }
  }

  /** After the first `i` flows: `order` lists their keys once each in first-appearance
      order, and the map holds exactly those keys, each with its sum so far. */
  ghost predicate Aggregated(keys: seq<string>, amounts: seq<real>, i: nat,
                             aggregated: map<string, real>, order: seq<string>)
    requires |keys| == |amounts| && i <= |keys|
  {
    && order == Dedup(keys[..i])
    && (forall k :: k in aggregated <==> k in keys[..i])
    && (forall k :: k in aggregated ==> aggregated[k] == Sum(Picked(keys[..i], amounts[..i], k)))
  }

  /** `aggregated.set(key, (aggregated.get(key) || 0) + amount)` over the flows: the map,
      and its keys in insertion order. */
  method AggregateFlows(flows: seq<Flow>) returns (aggregated: map<string, real>, order: seq<string>)
    ensures order == Dedup(Keys(flows))
    ensures forall k :: k in aggregated <==> k in order
    ensures forall k :: k in aggregated ==> aggregated[k] == Sum(Picked(Keys(flows), Amounts(flows), k))
  {
    aggregated, order := map[], [];
    var keys, amounts := Keys(flows), Amounts(flows);
    for i := 0 to |flows|
      invariant Aggregated(keys, amounts, i, aggregated, order)
    {
      var key := flows[i].from + "->" + flows[i].to;
      KeyAt(flows, i);
      var current := if key in aggregated then aggregated[key] else 0.0;
      AggregateStep(keys, amounts, i, aggregated, order, key, aggregated[key := current + flows[i].amount]);
      if key !in aggregated {
        order := order + [key];
      }
      aggregated := aggregated[key := current + flows[i].amount];
    }
    AggregatedAll(keys, amounts, aggregated, order);
  }

  /** Once every flow is in, the map's keys are those of the listed order. */
  lemma AggregatedAll(keys: seq<string>, amounts: seq<real>, aggregated: map<string, real>, order: seq<string>)
    requires |keys| == |amounts| && Aggregated(keys, amounts, |keys|, aggregated, order)
    ensures order == Dedup(keys)
    ensures forall k :: k in aggregated <==> k in order
    ensures forall k :: k in aggregated ==> aggregated[k] == Sum(Picked(keys, amounts, k))
  {
    assert keys[..|keys|] == keys && amounts[..|keys|] == amounts;
    DedupElements(keys);
  }

  /** The key and amount of the `i`-th flow. */
  lemma KeyAt(flows: seq<Flow>, i: nat)
    requires i < |flows|
    ensures Keys(flows)[i] == flows[i].from + "->" + flows[i].to
    ensures Amounts(flows)[i] == flows[i].amount
  {
    var pairs := Map(flows, Pair);
    assert pairs[i] == Pair(flows[i]);
    assert Map(pairs, PairKey)[i] == PairKey(pairs[i]);
    assert Map(flows, Amount)[i] == Amount(flows[i]);
  }

  /** The sums and the key order after one more flow. */
  lemma AggregateStep(keys: seq<string>, amounts: seq<real>, i: nat, aggregated: map<string, real>,
                      order: seq<string>, key: string, aggregated': map<string, real>)
    requires |keys| == |amounts| && i < |keys| && key == keys[i]
    requires Aggregated(keys, amounts, i, aggregated, order)
    requires aggregated' == aggregated[key := (if key in aggregated then aggregated[key] else 0.0) + amounts[i]]
    ensures Aggregated(keys, amounts, i + 1, aggregated', if key in aggregated then order else order + [key])
  {
    assert keys[..i + 1] == keys[..i] + [key] && amounts[..i + 1] == amounts[..i] + [amounts[i]];
    DedupElements(keys[..i]);
    forall k | k in aggregated' ensures aggregated'[k] == Sum(Picked(keys[..i + 1], amounts[..i + 1], k)) {
      PickedSnoc(keys[..i], amounts[..i], key, amounts[i], k);
      if k == key {
        PickedEmpty(keys[..i], amounts[..i], key);
        SumAppend(Picked(keys[..i], amounts[..i], k), [amounts[i]]);
        assert Sum([amounts[i]]) == Sum([]) + amounts[i];
      } else {
        assert Picked(keys[..i], amounts[..i], k) + [] == Picked(keys[..i], amounts[..i], k);
      }
    }
  }

  /** `aggregated.forEach((amount, key) => ...)`: split each key on `->` and push the two
      names' indices and the pair's sum. */
  method EmitLinks(order: seq<string>, aggregated: map<string, real>, walletIndex: map<string, nat>)
    returns (sources: seq<nat>, targets: seq<nat>, values: seq<real>)
    requires forall j :: 0 <= j < |order| ==>
      && order[j] in aggregated
      && |SplitArrow(order[j])| >= 2
      && SplitArrow(order[j])[0] in walletIndex
      && SplitArrow(order[j])[1] in walletIndex
    ensures |sources| == |order| && |targets| == |order| && |values| == |order|
    ensures forall j :: 0 <= j < |order| ==>
      && sources[j] == walletIndex[SplitArrow(order[j])[0]]
      && targets[j] == walletIndex[SplitArrow(order[j])[1]]
      && values[j] == aggregated[order[j]]
  {
    sources, targets, values := [], [], [];
    for j := 0 to |order|
      invariant |sources| == j && |targets| == j && |values| == j
      invariant forall m :: 0 <= m < j ==>
        && sources[m] == walletIndex[SplitArrow(order[m])[0]]
        && targets[m] == walletIndex[SplitArrow(order[m])[1]]
        && values[m] == aggregated[order[m]]
    {
      var key := order[j];
      var parts := SplitArrow(key);
      var from, to := parts[0], parts[1];
      sources := sources + [walletIndex[from]];
      targets := targets + [walletIndex[to]];
      values := values + [aggregated[key]];
    }
  }

  /** Key `j` of the map is the key of the `j`-th distinct pair, splits back into its two
      names, both of which are labels, and holds that pair's sum. */
  lemma OrderedLinks(flows: seq<Flow>, aggregated: map<string, real>, order: seq<string>)
    requires WellNamed(flows)
    requires order == Dedup(Keys(flows))
    requires forall k :: k in aggregated <==> k in order
    requires forall k :: k in aggregated ==> aggregated[k] == Sum(Picked(Keys(flows), Amounts(flows), k))
    ensures |order| == |Dedup(Pairs(flows))|
    ensures forall j :: 0 <= j < |order| ==>
      var p := Dedup(Pairs(flows))[j];
      && order[j] in aggregated
      && SplitArrow(order[j]) == [p.0, p.1]
      && p.0 in Dedup(Ends(flows)) && p.1 in Dedup(Ends(flows))
      && aggregated[order[j]] == GroupSums(Dedup(Pairs(flows)), Pairs(flows), Amounts(flows))[j]
  {
    KeysArePairs(flows);
    LinkEndsListed(flows);
    var links := Dedup(Pairs(flows));
    DedupElements(Pairs(flows));
    forall j | 0 <= j < |order|
      ensures order[j] in aggregated
      ensures SplitArrow(order[j]) == [links[j].0, links[j].1]
      ensures aggregated[order[j]] == GroupSums(links, Pairs(flows), Amounts(flows))[j]
    {
      assert links[j] in links;
      PairSplits(flows, links[j]);
    }
  }

  /** The arrays the link loop pushed are the specified ones. */
  lemma LinksAsSpecified(flows: seq<Flow>, aggregated: map<string, real>, order: seq<string>,
                         walletIndex: map<string, nat>, d: FlowData)
    requires d.labels == Dedup(Ends(flows))
    requires walletIndex == map w | w in d.labels :: IndexOf(d.labels, w)
    requires |order| == |Dedup(Pairs(flows))|
    requires forall j :: 0 <= j < |order| ==>
      var p := Dedup(Pairs(flows))[j];
      && order[j] in aggregated
      && SplitArrow(order[j]) == [p.0, p.1]
      && p.0 in Dedup(Ends(flows)) && p.1 in Dedup(Ends(flows))
      && aggregated[order[j]] == GroupSums(Dedup(Pairs(flows)), Pairs(flows), Amounts(flows))[j]
    requires |d.sources| == |order| && |d.targets| == |order| && |d.values| == |order|
    requires forall j :: 0 <= j < |order| ==>
      && d.sources[j] == walletIndex[SplitArrow(order[j])[0]]
      && d.targets[j] == walletIndex[SplitArrow(order[j])[1]]
      && d.values[j] == aggregated[order[j]]
    ensures d == FlowDataOf(flows)
  {
    var e := FlowDataOf(flows);
    assert d.sources == e.sources;
    assert d.targets == e.targets;
    assert d.values == e.values;
  }

  /** No two wallets share a name. */
  lemma NamesDistinct()
    ensures forall i, j :: 0 <= i < WalletCount && 0 <= j < WalletCount && WalletName(i) == WalletName(j) ==> i == j
  {
    forall i, j | 0 <= i < WalletCount && 0 <= j < WalletCount && WalletName(i) == WalletName(j) ensures i == j {
      NamedInjective("Wallet_", i + 1, j + 1);
    }
  }

  /** A wallet name has no `-` at all, so no `->`. */
  lemma NameHasNoArrow(i: nat)
    ensures NoArrow(WalletName(i))
  {
    var s := WalletName(i);
    forall k | 0 <= k < |s| ensures s[k] != '-' {
      if k >= 7 {
        assert s[k] == NatToString(i + 1)[k - 7];
      }
    }
  }

  /** A flow as the loop draws it: two different wallets of the thirty, and an amount in
      `[0.1, 5.1)`. */
  ghost predicate Drawn(f: Flow) {
    && (exists i :: 0 <= i < WalletCount && f.from == WalletName(i))
    && (exists i :: 0 <= i < WalletCount && f.to == WalletName(i))
    && f.from != f.to
    && 0.1 <= f.amount < 5.1
    && NoArrow(f.from) && NoArrow(f.to)
  }

  lemma DrawFlowValid(draws: seq<real>, pos: nat)
    requires Draws(draws) && DrawFlow(draws, pos).Some?
    ensures Drawn(DrawFlow(draws, pos).value.0)
  {
    var fromIndex := DrawIndex(draws[pos], WalletCount);
    var (toIndex, p) := DrawOther(draws, pos + 1, fromIndex, WalletCount).value;
    var f := DrawFlow(draws, pos).value.0;
    assert f == Flow(WalletName(fromIndex), WalletName(toIndex), DrawFlowAmount(draws[p]));
    NamesDistinct();
    NameHasNoArrow(fromIndex);
    NameHasNoArrow(toIndex);
  }

  /** Every generated flow is between two different wallets, with an amount in `[0.1, 5.1)`. */
  lemma {:induction false} DrawnFlowsValid(draws: seq<real>, n: nat)
    requires Draws(draws) && DrawFlows(draws, n).Some?
    ensures forall k :: 0 <= k < n ==> Drawn(DrawFlows(draws, n).value.0[k])
    ensures WellNamed(DrawFlows(draws, n).value.0)
  {
    if n > 0 {
      DrawnFlowsValid(draws, n - 1);
      var (fs, p) := DrawFlows(draws, n - 1).value;
      DrawFlowValid(draws, p);
      assert DrawFlows(draws, n).value.0 == fs + [DrawFlow(draws, p).value.0];
    }
  }

  /** Once the stream runs out, drawing more flows fails too. */
  lemma {:induction false} NoFlowStays(draws: seq<real>, m: nat, n: nat)
    requires Draws(draws) && m <= n
    requires DrawFlows(draws, m).None?
    ensures DrawFlows(draws, n).None?
    decreases n - m
  {
    if m < n {
      NoFlowStays(draws, m + 1, n);
    }
  }

  /** The first `->` of `a->b` is the one between them when `a` has none. */
  lemma {:induction false} ArrowAfter(a: string, b: string)
    requires NoArrow(a)
    ensures ArrowIndex(a + "->" + b) == Some(|a|)
  {
    var s := a + "->" + b;
    if a != [] {
      assert s[1..] == a[1..] + "->" + b;
      assert NoArrow(a[1..]) by {
        forall i | 0 <= i < |a[1..]| - 1 ensures !(a[1..][i] == '-' && a[1..][i + 1] == '>') {
          assert a[1..][i] == a[i + 1] && a[1..][i + 1] == a[i + 2];
        }
      }
      ArrowAfter(a[1..], b);
      assert !(s[0] == '-' && s[1] == '>') by {
        if |a| >= 2 {
          assert s[0] == a[0] && s[1] == a[1];
        } else {
          assert s[1] == '-';
        }
      }
    }
  }

  /** A string without `->` does not split. */
  lemma {:induction false} NoArrowIndex(s: string)
    requires NoArrow(s)
    ensures ArrowIndex(s).None?
  {
    if |s| >= 2 {
      assert NoArrow(s[1..]) by {
        forall i | 0 <= i < |s[1..]| - 1 ensures !(s[1..][i] == '-' && s[1..][i + 1] == '>') {
          assert s[1..][i] == s[i + 1] && s[1..][i + 1] == s[i + 2];
        }
      }
      NoArrowIndex(s[1..]);
    }
  }

  /** The key round-trips: splitting `${from}->${to}` gives back `[from, to]` when neither
      name contains `->`. */
  lemma SplitJoin(from: string, to: string)
    requires NoArrow(from) && NoArrow(to)
    ensures SplitArrow(from + "->" + to) == [from, to]
  {
    var s := from + "->" + to;
    ArrowAfter(from, to);
    assert s[..|from|] == from && s[|from| + 2..] == to;
    NoArrowIndex(to);
  }

  /** Without that condition the round trip fails: a name containing `->` splits apart. */
  lemma ArrowInNameSplits()
    ensures SplitArrow(PairKey(("a->b", "c"))) == ["a", "b", "c"]
  {
    var s := PairKey(("a->b", "c"));
    assert s == "a->b->c";
    assert s[1..] == "->b->c";
    assert ArrowIndex(s) == Some(1);
    assert s[..1] == "a" && s[3..] == "b->c";
    SplitsInTwo();
  }

  lemma SplitsInTwo()
    ensures SplitArrow("b->c") == ["b", "c"]
  {
    var t := "b->c";
    assert t[1..] == "->c";
    assert ArrowIndex(t) == Some(1);
    assert t[..1] == "b" && t[3..] == "c";
    assert ArrowIndex("c") == None;
  }

  /** A pair of `->`-free names splits back from its key. */
  lemma PairSplits(flows: seq<Flow>, p: (string, string))
    requires WellNamed(flows) && p in Pairs(flows)
    ensures NoArrow(p.0) && NoArrow(p.1) && SplitArrow(PairKey(p)) == [p.0, p.1]
  {
    var i :| 0 <= i < |Pairs(flows)| && Pairs(flows)[i] == p;
    assert p == Pair(flows[i]);
    SplitJoin(p.0, p.1);
  }

  /** With `->`-free names, keys and pairs determine each other, so summing by key is
      summing by ordered pair. */
  lemma KeysArePairs(flows: seq<Flow>)
    requires WellNamed(flows)
    ensures Dedup(Keys(flows)) == Map(Dedup(Pairs(flows)), PairKey)
    ensures forall p :: p in Pairs(flows) ==>
      Picked(Keys(flows), Amounts(flows), PairKey(p)) == Picked(Pairs(flows), Amounts(flows), p)
  {
    var ps := Pairs(flows);
    forall i, j | 0 <= i < |ps| && 0 <= j < |ps| && PairKey(ps[i]) == PairKey(ps[j]) ensures ps[i] == ps[j] {
      PairSplits(flows, ps[i]);
      PairSplits(flows, ps[j]);
    }
    DedupMap(ps, PairKey);
    forall p | p in ps
      ensures Picked(Keys(flows), Amounts(flows), PairKey(p)) == Picked(ps, Amounts(flows), p)
    {
      var all := ps + [p];
      forall i, j | 0 <= i < |all| && 0 <= j < |all| && PairKey(all[i]) == PairKey(all[j]) ensures all[i] == all[j] {
        assert all[i] in ps && all[j] in ps;
        PairSplits(flows, all[i]);
        PairSplits(flows, all[j]);
      }
      PickedMap(ps, Amounts(flows), PairKey, p);
    }
  }

  /** Both names of every pair are among the labels. */
  lemma {:induction false} LinkEndsListed(flows: seq<Flow>)
    ensures forall p :: p in Dedup(Pairs(flows)) ==> p.0 in Dedup(Ends(flows)) && p.1 in Dedup(Ends(flows))
  {
    DedupElements(Pairs(flows));
    DedupElements(Ends(flows));
    EndsOfPairs(flows);
  }

  lemma {:induction false} EndsOfPairs(flows: seq<Flow>)
    ensures forall p :: p in Pairs(flows) ==> p.0 in Ends(flows) && p.1 in Ends(flows)
    ensures forall w :: w in Ends(flows) <==> exists i :: 0 <= i < |flows| && (flows[i].from == w || flows[i].to == w)
  {
    if flows != [] {
      var front := flows[..|flows| - 1];
      EndsOfPairs(front);
      assert Pairs(flows) == Pairs(front) + [Pair(flows[|flows| - 1])];
      forall w ensures w in Ends(flows) <==> exists i :: 0 <= i < |flows| && (flows[i].from == w || flows[i].to == w) {
        if w in Ends(flows) && w !in Ends(front) {
          assert flows[|flows| - 1].from == w || flows[|flows| - 1].to == w;
        }
        if exists i :: 0 <= i < |flows| && (flows[i].from == w || flows[i].to == w) {
          var i :| 0 <= i < |flows| && (flows[i].from == w || flows[i].to == w);
          if i < |front| {
            assert front[i] == flows[i];
          }
        }
      }
    }
  }

  /** The labels are distinct, are exactly the wallets that take part in some flow, and
      come in order of first appearance among the flows' ends. */
  lemma LabelsAreWallets(flows: seq<Flow>)
    ensures Distinct(FlowDataOf(flows).labels)
    ensures forall w :: w in FlowDataOf(flows).labels <==>
      exists i :: 0 <= i < |flows| && (flows[i].from == w || flows[i].to == w)
    ensures var labels := FlowDataOf(flows).labels;
      forall i, j :: 0 <= i < j < |labels| ==>
        && labels[i] in Ends(flows) && labels[j] in Ends(flows)
        && IndexOf(Ends(flows), labels[i]) < IndexOf(Ends(flows), labels[j])
  {
    DedupElements(Ends(flows));
    DedupOrder(Ends(flows));
    EndsOfPairs(flows);
  }

  /** Every flow's pair has exactly one link; each link's source and target are valid
      positions of its two names among the labels; and, as no flow goes from a wallet to
      itself, no link does either. */
  lemma LinksWellFormed(flows: seq<Flow>)
    requires forall i :: 0 <= i < |flows| ==> flows[i].from != flows[i].to
    ensures var d, links := FlowDataOf(flows), Dedup(Pairs(flows));
      && Distinct(links)
      && (forall i :: 0 <= i < |flows| ==> (flows[i].from, flows[i].to) in links)
      && forall j :: 0 <= j < |links| ==>
        && d.sources[j] < |d.labels| && d.labels[d.sources[j]] == links[j].0
        && d.targets[j] < |d.labels| && d.labels[d.targets[j]] == links[j].1
        && d.sources[j] != d.targets[j]
  {
    var links := Dedup(Pairs(flows));
    DedupElements(Pairs(flows));
    forall i | 0 <= i < |flows| ensures (flows[i].from, flows[i].to) in links {
      assert Map(flows, Pair)[i] == Pair(flows[i]);
    }
    forall j | 0 <= j < |links| ensures links[j].0 != links[j].1 {
      assert links[j] in links;
      var i :| 0 <= i < |Pairs(flows)| && Pairs(flows)[i] == links[j];
      assert links[j] == Pair(flows[i]);
    }
  }

  /** The link values add up to the total amount of all flows: each flow is counted in
      exactly one link. */
  lemma ValuesTotal(flows: seq<Flow>)
    ensures Sum(FlowDataOf(flows).values) == Sum(Amounts(flows))
  {
    GroupSumsTotal(Pairs(flows), Amounts(flows));
  }

  /** What a successful run hands the chart: no link from a wallet to itself, and no link
      below the smallest amount a single flow can have. */
  lemma GeneratedLinks(draws: seq<real>)
    requires Draws(draws) && DrawFlows(draws, FlowCount).Some?
    ensures var d := FlowDataOf(DrawFlows(draws, FlowCount).value.0);
      forall j :: 0 <= j < |d.sources| ==> d.sources[j] != d.targets[j] && d.values[j] >= 0.1
  {
    var flows := DrawFlows(draws, FlowCount).value.0;
    DrawnFlowsValid(draws, FlowCount);
    forall i | 0 <= i < |flows| ensures flows[i].from != flows[i].to && flows[i].amount >= 0.1 {
      assert Drawn(flows[i]);
    }
    LinksWellFormed(flows);
    var links := Dedup(Pairs(flows));
    DedupElements(Pairs(flows));
    forall j | 0 <= j < |links| ensures Sum(Picked(Pairs(flows), Amounts(flows), links[j])) >= 0.1 {
      assert links[j] in Pairs(flows);
      PickedAtLeast(flows, links[j]);
    }
  }

  /** A pair that occurs has at least one amount, and every amount is at least `0.1`. */
  lemma {:induction false} PickedAtLeast(flows: seq<Flow>, p: (string, string))
    requires forall i :: 0 <= i < |flows| ==> flows[i].amount >= 0.1
    ensures Sum(Picked(Pairs(flows), Amounts(flows), p)) >= 0.0
    ensures p in Pairs(flows) ==> Sum(Picked(Pairs(flows), Amounts(flows), p)) >= 0.1
  {
    if flows != [] {
      var n := |flows|;
      var front, last := flows[..n - 1], flows[n - 1];
      MapSnoc(flows, Pair);
      MapSnoc(flows, Amount);
      PickedSnoc(Pairs(front), Amounts(front), Pair(last), last.amount, p);
      SumAppend(Picked(Pairs(front), Amounts(front), p), if Pair(last) == p then [last.amount] else []);
      assert Sum([last.amount]) == Sum([]) + last.amount;
      PickedAtLeast(front, p);
    }
  }
}
