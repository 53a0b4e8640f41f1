/** Per-wallet activity over time: the wallet's transactions counted and summed in
    fixed-width, epoch-aligned buckets, returned in ascending time order. */
module TemporalActivity {
  import opened Numeric
  import opened WalletModel
  import Sorting
  import opened Grouping

  datatype Bucket = Bucket(timestamp: int, count: nat, volume: real)

  /** What a bucket accumulates. */
  datatype Tally = Tally(count: nat, volume: real)

  function Add(a: Tally, b: Tally): Tally {
    Tally(a.count + b.count, a.volume + b.volume)
  }

  function IntervalMs(intervalHours: nat): int {
    intervalHours * 60 * 60 * 1000
  }

  /** `Math.floor(time / intervalMs)`: Dafny's division by a positive divisor rounds down. */
  function BucketKey(time: int, intervalMs: int): int
    requires intervalMs > 0
  {
    time / intervalMs
  }

  /** Number and summed amount of the transactions whose bucket key is `key`. */
  function TallyOf(txs: seq<Transaction>, key: int, intervalMs: int): Tally
    requires intervalMs > 0
  {
    if txs == [] then Tally(0, 0.0)
    else
      var t := txs[|txs| - 1];
      Add(TallyOf(txs[..|txs| - 1], key, intervalMs),
          if BucketKey(t.timestamp, intervalMs) == key then Tally(1, t.amount) else Tally(0, 0.0))
  }

  /** The comparator `(a, b) => a.timestamp - b.timestamp`. */
  function EarlierFirst(a: Bucket, b: Bucket): bool {
    a.timestamp <= b.timestamp
  }

  lemma EarlierFirstIsTotalPreorder()
    ensures Sorting.TotalPreorder(EarlierFirst)
  {
  }

  /** `buckets` is the activity series of `txs`: strictly ascending epoch-aligned starts,
      each bucket holding exactly the count and volume of the transactions in
      `[start, start + intervalMs)`, and every transaction falling in one of the buckets. */
  ghost predicate Describes(buckets: seq<Bucket>, txs: seq<Transaction>, intervalMs: int)
    requires intervalMs > 0
  {
    && (forall i, j :: 0 <= i < j < |buckets| ==> buckets[i].timestamp < buckets[j].timestamp)
    && (forall i :: 0 <= i < |buckets| ==> WellFormed(buckets[i], txs, intervalMs))
    && Covers(buckets, txs, intervalMs)
  }

  /** Every transaction falls inside some bucket's half-open interval. */
  ghost predicate Covers(buckets: seq<Bucket>, txs: seq<Transaction>, intervalMs: int) {
    forall t :: t in txs ==> exists i :: 0 <= i < |buckets| && Within(t.timestamp, buckets[i], intervalMs)
  }

  predicate Within(time: int, b: Bucket, intervalMs: int) {
    b.timestamp <= time < b.timestamp + intervalMs
  }

  /** `getTemporalActivity`: tallies the wallet's transactions in a map keyed by bucket,
      then lists the buckets sorted by start time. */
  method GetTemporalActivity(wallet: Wallet, txs: seq<Transaction>, intervalHours: nat)
    returns (buckets: seq<Bucket>)
    requires intervalHours > 0
    ensures Describes(buckets, WalletTxs(wallet.id, txs), IntervalMs(intervalHours))
    ensures WalletTxs(wallet.id, txs) == [] ==> buckets == []
  {
    var intervalMs := IntervalMs(intervalHours);
    var walletTxs := WalletTxs(wallet.id, txs);
    var intervals, order := TallyIntervals(walletTxs, intervalMs);
    var entries := Entries(intervals, order, intervalMs);
    buckets := Sorting.Sort(entries, EarlierFirst);
    EntriesDescribe(walletTxs, intervalMs, intervals, order);
    SortedEntriesDescribe(walletTxs, intervalMs, entries);
  }

  /** The `forEach` of `getTemporalActivity`: adds each transaction to the count and volume
      of its bucket in a JavaScript Map, given as its entries and the order in which keys
      were first set. */
  method TallyIntervals(walletTxs: seq<Transaction>, intervalMs: int)
    returns (intervals: map<int, Tally>, order: seq<int>)
    requires intervalMs > 0
    ensures Tallies(walletTxs, intervalMs, intervals, order)
  {
    intervals, order := map[], [];
    for i := 0 to |walletTxs|
      invariant Tallies(walletTxs[..i], intervalMs, intervals, order)
    {
      var tx := walletTxs[i];
      var key := BucketKey(tx.timestamp, intervalMs);
      var existing := if key in intervals then intervals[key] else Tally(0, 0.0);
      var order' := if key in intervals then order else order + [key];
      TalliesStep(walletTxs, i, intervalMs, intervals, order, key, existing,
                  intervals[key := Tally(existing.count + 1, existing.volume + tx.amount)], order');
      intervals := intervals[key := Tally(existing.count + 1, existing.volume + tx.amount)];
      order := order';
    }
    assert walletTxs[..|walletTxs|] == walletTxs;
  }

  /** `Array.from(intervals.entries()).map(...)`: one bucket per key, in insertion order,
      starting at `key * intervalMs`. */
  function Entries(intervals: map<int, Tally>, order: seq<int>, intervalMs: int): (r: seq<Bucket>)
    requires forall j :: 0 <= j < |order| ==> order[j] in intervals
    ensures |r| == |order|
    ensures forall j :: 0 <= j < |order| ==> r[j].timestamp == order[j] * intervalMs
  {
    seq(|order|, j requires 0 <= j < |order| =>
      Bucket(order[j] * intervalMs, intervals[order[j]].count, intervals[order[j]].volume))
  }

  /** The loop invariant: the map holds exactly the non-empty tallies of `txs`, and `order`
      lists its keys once each. */
  ghost predicate Tallies(txs: seq<Transaction>, intervalMs: int, intervals: map<int, Tally>, order: seq<int>)
    requires intervalMs > 0
  {
    KeysListed(intervals, order) && Counted(txs, intervalMs, intervals)
  }

  /** `order` lists the map's keys, each once. */
  ghost predicate KeysListed(intervals: map<int, Tally>, order: seq<int>) {
    && Distinct(order)
    && (forall k :: k in intervals <==> k in order)
    && (forall j :: 0 <= j < |order| ==> order[j] in intervals)
  }

  /** The map holds the tally of every key that has a transaction, and no other key. */
  ghost predicate Counted(txs: seq<Transaction>, intervalMs: int, intervals: map<int, Tally>)
    requires intervalMs > 0
  {
    && (forall k :: k in intervals ==>
          intervals[k] == TallyOf(txs, k, intervalMs) && intervals[k].count > 0)
    && (forall k :: k !in intervals ==> TallyOf(txs, k, intervalMs) == Tally(0, 0.0))
  }

  lemma TalliesStep(txs: seq<Transaction>, i: nat, intervalMs: int,
                    intervals: map<int, Tally>, order: seq<int>, key: int, existing: Tally,
                    intervals': map<int, Tally>, order': seq<int>)
    requires intervalMs > 0 && i < |txs|
    requires Tallies(txs[..i], intervalMs, intervals, order)
    requires key == BucketKey(txs[i].timestamp, intervalMs)
    requires existing == if key in intervals then intervals[key] else Tally(0, 0.0)
    requires intervals' == intervals[key := Tally(existing.count + 1, existing.volume + txs[i].amount)]
    requires order' == if key in intervals then order else order + [key]
    ensures Tallies(txs[..i + 1], intervalMs, intervals', order')
  {
    KeysStep(intervals, order, key, intervals', order');
    CountedStep(txs, i, intervalMs, intervals, key, existing, intervals');
  }

  lemma CountedStep(txs: seq<Transaction>, i: nat, intervalMs: int,
                    intervals: map<int, Tally>, key: int, existing: Tally, intervals': map<int, Tally>)
    requires intervalMs > 0 && i < |txs|
    requires Counted(txs[..i], intervalMs, intervals)
    requires key == BucketKey(txs[i].timestamp, intervalMs)
    requires existing == if key in intervals then intervals[key] else Tally(0, 0.0)
    requires intervals' == intervals[key := Tally(existing.count + 1, existing.volume + txs[i].amount)]
    ensures Counted(txs[..i + 1], intervalMs, intervals')
  {
    ValuesStep(txs, i, intervalMs, intervals, key, existing, intervals');
    ZerosStep(txs, i, intervalMs, intervals, key, intervals');
  }

  /** Adding one transaction to its key's tally keeps the map equal to the tallies. */
  lemma ValuesStep(txs: seq<Transaction>, i: nat, intervalMs: int,
                   intervals: map<int, Tally>, key: int, existing: Tally, intervals': map<int, Tally>)
    requires intervalMs > 0 && i < |txs|
    requires forall k :: k in intervals ==>
      intervals[k] == TallyOf(txs[..i], k, intervalMs) && intervals[k].count > 0
    requires forall k :: k !in intervals ==> TallyOf(txs[..i], k, intervalMs) == Tally(0, 0.0)
    requires key == BucketKey(txs[i].timestamp, intervalMs)
    requires existing == if key in intervals then intervals[key] else Tally(0, 0.0)
    requires intervals' == intervals[key := Tally(existing.count + 1, existing.volume + txs[i].amount)]
    ensures forall k :: k in intervals' ==>
      intervals'[k] == TallyOf(txs[..i + 1], k, intervalMs) && intervals'[k].count > 0
  {
    forall k | k in intervals'
      ensures intervals'[k] == TallyOf(txs[..i + 1], k, intervalMs) && intervals'[k].count > 0
    {
      ValueAt(txs, i, intervalMs, intervals, key, existing, intervals', k);
    }
  }

  /** Keys still absent from the map still have empty tallies. */
  lemma ZerosStep(txs: seq<Transaction>, i: nat, intervalMs: int,
                  intervals: map<int, Tally>, key: int, intervals': map<int, Tally>)
    requires intervalMs > 0 && i < |txs|
    requires forall k :: k !in intervals ==> TallyOf(txs[..i], k, intervalMs) == Tally(0, 0.0)
    requires key == BucketKey(txs[i].timestamp, intervalMs)
    requires intervals'.Keys == intervals.Keys + {key}
    ensures forall k :: k !in intervals' ==> TallyOf(txs[..i + 1], k, intervalMs) == Tally(0, 0.0)
  {
    forall k | k !in intervals' ensures TallyOf(txs[..i + 1], k, intervalMs) == Tally(0, 0.0) {
      TallyOfSnoc(txs, i, k, intervalMs);
    }
  }

  lemma ValueAt(txs: seq<Transaction>, i: nat, intervalMs: int, intervals: map<int, Tally>,
                key: int, existing: Tally, intervals': map<int, Tally>, k: int)
    requires intervalMs > 0 && i < |txs|
    requires k in intervals ==> intervals[k] == TallyOf(txs[..i], k, intervalMs)
    requires k !in intervals ==> TallyOf(txs[..i], k, intervalMs) == Tally(0, 0.0)
    requires key == BucketKey(txs[i].timestamp, intervalMs)
    requires existing == if key in intervals then intervals[key] else Tally(0, 0.0)
    requires intervals' == intervals[key := Tally(existing.count + 1, existing.volume + txs[i].amount)]
    requires k in intervals'
    ensures intervals'[k] == TallyOf(txs[..i + 1], k, intervalMs)
  {
    TallyOfSnoc(txs, i, k, intervalMs);
    if k != key {
      assert intervals'[k] == intervals[k];
    }
  }

  lemma TallyOfSnoc(txs: seq<Transaction>, i: nat, k: int, intervalMs: int)
    requires intervalMs > 0 && i < |txs|
    ensures TallyOf(txs[..i + 1], k, intervalMs) == Add(TallyOf(txs[..i], k, intervalMs),
      if BucketKey(txs[i].timestamp, intervalMs) == k then Tally(1, txs[i].amount) else Tally(0, 0.0))
  {
    assert txs[..i + 1][..i] == txs[..i];
  }

  /** Setting a key keeps `order` listing the map's keys once each. */
  lemma KeysStep(intervals: map<int, Tally>, order: seq<int>, key: int,
                 intervals': map<int, Tally>, order': seq<int>)
    requires KeysListed(intervals, order)
    requires intervals'.Keys == intervals.Keys + {key}
    requires order' == if key in intervals then order else order + [key]
    ensures KeysListed(intervals', order')
  {
  }

  /** The unsorted entries have distinct starts, the right tallies, and cover every transaction. */
  lemma EntriesDescribe(walletTxs: seq<Transaction>, intervalMs: int, intervals: map<int, Tally>,
                        order: seq<int>)
    requires intervalMs > 0
    requires Tallies(walletTxs, intervalMs, intervals, order)
    ensures var entries := Entries(intervals, order, intervalMs);
      && (forall i, j :: 0 <= i < j < |entries| ==> entries[i].timestamp != entries[j].timestamp)
      && (forall i :: 0 <= i < |entries| ==> WellFormed(entries[i], walletTxs, intervalMs))
      && Covers(entries, walletTxs, intervalMs)
  {
    var entries := Entries(intervals, order, intervalMs);
    forall i | 0 <= i < |entries|
      ensures entries[i].timestamp % intervalMs == 0
      ensures entries[i].timestamp / intervalMs == order[i]
    {
      MultipleDivides(order[i], intervalMs);
    }
    forall i, j | 0 <= i < j < |entries| ensures entries[i].timestamp != entries[j].timestamp {
      assert entries[i].timestamp / intervalMs == order[i];
    }
    forall t | t in walletTxs ensures exists i :: 0 <= i < |entries| && Within(t.timestamp, entries[i], intervalMs)
    {
      var key := BucketKey(t.timestamp, intervalMs);
      var n :| 0 <= n < |walletTxs| && walletTxs[n] == t;
      TallyCountsMember(walletTxs, n, intervalMs);
      assert key in order;
      var i :| 0 <= i < |order| && order[i] == key;
      KeyBounds(t.timestamp, intervalMs);
      assert Within(t.timestamp, entries[i], intervalMs);
    }
  }

  /** One bucket of the series: aligned, non-empty, and holding exactly its transactions. */
  ghost predicate WellFormed(b: Bucket, txs: seq<Transaction>, intervalMs: int)
    requires intervalMs > 0
  {
    && b.timestamp % intervalMs == 0
    && b.count > 0
    && Tally(b.count, b.volume) == TallyOf(txs, b.timestamp / intervalMs, intervalMs)
  }

  lemma MultipleDivides(k: int, m: int)
    requires m > 0
    ensures (k * m) % m == 0 && (k * m) / m == k
  {
    DivUnique(k * m, k, 0, m);
  }

  /** Division with a remainder in `[0, m)` has a single answer. */
  lemma DivUnique(x: int, q: int, r: int, m: int)
    requires m > 0 && 0 <= r < m && x == q * m + r
    ensures x / m == q && x % m == r
  {
    var q', r' := x / m, x % m;
    assert (q - q') * m == r' - r;
    if q - q' >= 1 {
      AtLeastOnce(q - q', m);
    } else if q - q' <= -1 {
      AtLeastOnce(q' - q, m);
    }
  }

  lemma AtLeastOnce(d: int, m: int)
    requires d >= 1 && m > 0
    ensures d * m >= m
  {
  }

  /** A bucket's key and start bracket every time that falls into it. */
  lemma KeyBounds(time: int, intervalMs: int)
    requires intervalMs > 0
    ensures BucketKey(time, intervalMs) * intervalMs <= time < BucketKey(time, intervalMs) * intervalMs + intervalMs
  {
  }

  lemma {:induction false} TallyCountsMember(txs: seq<Transaction>, n: nat, intervalMs: int)
    requires intervalMs > 0 && n < |txs|
    ensures TallyOf(txs, BucketKey(txs[n].timestamp, intervalMs), intervalMs).count > 0
  {
    if n < |txs| - 1 {
      TallyCountsMember(txs[..|txs| - 1], n, intervalMs);
    }
  }

  /** Sorting a list with distinct starts by start time makes them strictly ascending and
      keeps every bucket. */
  lemma SortedEntriesDescribe(walletTxs: seq<Transaction>, intervalMs: int, entries: seq<Bucket>)
    requires intervalMs > 0
    requires forall i, j :: 0 <= i < j < |entries| ==> entries[i].timestamp != entries[j].timestamp
    requires forall i :: 0 <= i < |entries| ==> WellFormed(entries[i], walletTxs, intervalMs)
    requires Covers(entries, walletTxs, intervalMs)
    ensures Describes(Sorting.Sort(entries, EarlierFirst), walletTxs, intervalMs)
    ensures entries == [] ==> Sorting.Sort(entries, EarlierFirst) == []
  {
    EarlierFirstIsTotalPreorder();
    var buckets := Sorting.Sort(entries, EarlierFirst);
    Sorting.SortSorted(entries, EarlierFirst);
    SortedStrictly(entries, buckets);
    ReorderedWellFormed(entries, buckets, walletTxs, intervalMs);
    ReorderedCovers(entries, buckets, walletTxs, intervalMs);
  }

  lemma ReorderedWellFormed(entries: seq<Bucket>, buckets: seq<Bucket>, txs: seq<Transaction>, intervalMs: int)
    requires intervalMs > 0
    requires multiset(buckets) == multiset(entries)
    requires forall i :: 0 <= i < |entries| ==> WellFormed(entries[i], txs, intervalMs)
    ensures forall i :: 0 <= i < |buckets| ==> WellFormed(buckets[i], txs, intervalMs)
  {
    forall i | 0 <= i < |buckets| ensures WellFormed(buckets[i], txs, intervalMs) {
      assert buckets[i] in multiset(entries);
    }
  }

  lemma ReorderedCovers(entries: seq<Bucket>, buckets: seq<Bucket>, txs: seq<Transaction>, intervalMs: int)
    requires multiset(buckets) == multiset(entries)
    requires Covers(entries, txs, intervalMs)
    ensures Covers(buckets, txs, intervalMs)
  {
    forall t | t in txs ensures exists i :: 0 <= i < |buckets| && Within(t.timestamp, buckets[i], intervalMs)
    {
      var j :| 0 <= j < |entries| && Within(t.timestamp, entries[j], intervalMs);
      assert entries[j] in multiset(buckets);
      var i :| 0 <= i < |buckets| && buckets[i] == entries[j];
    }
  }

  /** A sorted permutation of buckets with distinct starts has strictly ascending starts. */
  lemma SortedStrictly(entries: seq<Bucket>, buckets: seq<Bucket>)
    requires forall i, j :: 0 <= i < j < |entries| ==> entries[i].timestamp != entries[j].timestamp
    requires multiset(buckets) == multiset(entries)
    requires Sorting.Sorted(buckets, EarlierFirst)
    ensures forall i, j :: 0 <= i < j < |buckets| ==> buckets[i].timestamp < buckets[j].timestamp
  {
    forall i, j | 0 <= i < j < |buckets| ensures buckets[i].timestamp < buckets[j].timestamp {
      assert EarlierFirst(buckets[i], buckets[j]);
      if buckets[i].timestamp == buckets[j].timestamp {
        assert buckets[i] in multiset(entries) && buckets[j] in multiset(entries);
        var a :| 0 <= a < |entries| && entries[a] == buckets[i];
        var b :| 0 <= b < |entries| && entries[b] == buckets[j];
        assert a == b;
        TwoPositions(buckets, i, j);
        DistinctOnce(entries, a);
        assert false;
      }
    }
  }

  /** In a list whose starts are distinct, each bucket occurs once. */
  lemma DistinctOnce(s: seq<Bucket>, a: nat)
    requires a < |s|
    requires forall i, j :: 0 <= i < j < |s| ==> s[i].timestamp != s[j].timestamp
    ensures multiset(s)[s[a]] == 1
  {
    var x, before, after := s[a], s[..a], s[a + 1..];
    assert s == before + [x] + after;
    assert forall i :: 0 <= i < |before| ==> before[i].timestamp != x.timestamp;
    assert forall i :: 0 <= i < |after| ==> after[i] == s[a + 1 + i];
    assert x !in multiset(before);
    assert x !in multiset(after);
  }

  /** Total count and volume of a bucket series. */
  function BucketTotal(buckets: seq<Bucket>): Tally {
    if buckets == [] then Tally(0, 0.0)
    else
      var b := buckets[|buckets| - 1];
      Add(BucketTotal(buckets[..|buckets| - 1]), Tally(b.count, b.volume))
  }

  /** The tallies of `txs` at each of `keys`, added up. */
  function TallySum(txs: seq<Transaction>, keys: seq<int>, intervalMs: int): Tally
    requires intervalMs > 0
  {
    if keys == [] then Tally(0, 0.0)
    else Add(TallySum(txs, keys[..|keys| - 1], intervalMs), TallyOf(txs, keys[|keys| - 1], intervalMs))
  }

  /** Nothing is lost or counted twice: the buckets' counts add up to the number of the
      wallet's transactions and their volumes to the wallet's total amount. */
  lemma ActivityConserves(buckets: seq<Bucket>, txs: seq<Transaction>, intervalMs: int)
    requires intervalMs > 0
    requires Describes(buckets, txs, intervalMs)
    ensures BucketTotal(buckets) == Tally(|txs|, Sum(Amounts(txs)))
  {
    var keys := seq(|buckets|, i requires 0 <= i < |buckets| => buckets[i].timestamp / intervalMs);
    forall i, j | 0 <= i < j < |keys| ensures keys[i] != keys[j] {
      AlignedKeys(buckets[i].timestamp, buckets[j].timestamp, intervalMs);
    }
    forall t | t in txs ensures BucketKey(t.timestamp, intervalMs) in keys {
      var i :| 0 <= i < |buckets| && Within(t.timestamp, buckets[i], intervalMs);
      SameBucket(buckets[i].timestamp, t.timestamp, intervalMs);
      assert keys[i] == BucketKey(t.timestamp, intervalMs);
    }
    BucketsAreTallies(buckets, txs, intervalMs, keys);
    TallySumCovers(txs, keys, intervalMs);
  }

  /** Aligned starts that differ have different keys. */
  lemma AlignedKeys(a: int, b: int, m: int)
    requires m > 0 && a % m == 0 && b % m == 0 && a != b
    ensures a / m != b / m
  {
  }

  /** A time inside an aligned bucket has that bucket's key. */
  lemma SameBucket(start: int, time: int, m: int)
    requires m > 0 && start % m == 0 && start <= time < start + m
    ensures time / m == start / m
  {
    var q := start / m;
    DivUnique(time, q, time - start, m);
  }

  lemma {:induction false} BucketsAreTallies(buckets: seq<Bucket>, txs: seq<Transaction>, intervalMs: int, keys: seq<int>)
    requires intervalMs > 0
    requires forall i :: 0 <= i < |buckets| ==> WellFormed(buckets[i], txs, intervalMs)
    requires |keys| == |buckets|
    requires forall i :: 0 <= i < |buckets| ==> keys[i] == buckets[i].timestamp / intervalMs
    ensures BucketTotal(buckets) == TallySum(txs, keys, intervalMs)
  {
    if buckets != [] {
      BucketsAreTallies(buckets[..|buckets| - 1], txs, intervalMs, keys[..|keys| - 1]);
    }
  }

  /** Over distinct keys that include every transaction's key, the tallies add up to
      the number and total amount of the transactions. */
  lemma {:induction false} TallySumCovers(txs: seq<Transaction>, keys: seq<int>, intervalMs: int)
    requires intervalMs > 0
    requires Distinct(keys)
    requires forall t :: t in txs ==> BucketKey(t.timestamp, intervalMs) in keys
    ensures TallySum(txs, keys, intervalMs) == Tally(|txs|, Sum(Amounts(txs)))
  {
    if txs == [] {
      TallySumEmpty(keys, intervalMs);
    } else {
      var init := txs[..|txs| - 1];
      assert forall t :: t in init ==> t in txs;
      TallySumCovers(init, keys, intervalMs);
      TallySumSnoc(txs, keys, intervalMs);
      assert Amounts(txs)[..|txs| - 1] == Amounts(init);
    }
  }

  lemma {:induction false} TallySumEmpty(keys: seq<int>, intervalMs: int)
    requires intervalMs > 0
    ensures TallySum([], keys, intervalMs) == Tally(0, 0.0)
  {
    if keys != [] {
      TallySumEmpty(keys[..|keys| - 1], intervalMs);
    }
  }

  /** The last transaction adds one and its amount to the sum, when its key is listed once. */
  lemma {:induction false} TallySumSnoc(txs: seq<Transaction>, keys: seq<int>, intervalMs: int)
    requires intervalMs > 0 && txs != []
    requires Distinct(keys)
    ensures var x := txs[|txs| - 1];
      TallySum(txs, keys, intervalMs) == Add(TallySum(txs[..|txs| - 1], keys, intervalMs),
        if BucketKey(x.timestamp, intervalMs) in keys then Tally(1, x.amount) else Tally(0, 0.0))
  {
    if keys != [] {
      var init := keys[..|keys| - 1];
      assert forall k :: k in keys <==> k in init || k == keys[|keys| - 1];
      TallySumSnoc(txs, init, intervalMs);
    }
  }
}
