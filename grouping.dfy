/** Grouping by key as JavaScript's insertion-ordered `Set`, `Map` and object keys do it:
    each key once, in order of first appearance, and the values of each key in input order. */
module Grouping {
  import opened Numeric

  ghost predicate Distinct<T>(s: seq<T>) {
    forall i, j :: 0 <= i < j < |s| ==> s[i] != s[j]
  }

  /** `Array.from(new Set(s))`: each element once, where it first appears. */
  function Dedup<T(==)>(s: seq<T>): (r: seq<T>)
    ensures |r| <= |s|
  {
    if s == [] then []
    else
      var r := Dedup(s[..|s| - 1]);
      if s[|s| - 1] in r then r else r + [s[|s| - 1]]
  }

  /** `s.indexOf(x)` for an element of `s`: the position of its first occurrence. */
  function IndexOf<T(==)>(s: seq<T>, x: T): (i: nat)
    requires x in s
    ensures i < |s| && s[i] == x
    ensures forall j :: 0 <= j < i ==> s[j] != x
  {
    if x in s[..|s| - 1] then IndexOf(s[..|s| - 1], x) else |s| - 1
  }

  /** The values whose key is `k`, in input order. */
  function Picked<K(==), V>(keys: seq<K>, vals: seq<V>, k: K): (r: seq<V>)
    requires |keys| == |vals|
    ensures |r| <= |keys|
  {
    if keys == [] then []
    else
      Picked(keys[..|keys| - 1], vals[..|vals| - 1], k)
        + (if keys[|keys| - 1] == k then [vals[|vals| - 1]] else [])
  }

  /** The sum of each group's values, for the keys `ds` in that order. */
  function GroupSums<K(==)>(ds: seq<K>, keys: seq<K>, vals: seq<real>): (r: seq<real>)
    requires |keys| == |vals|
    ensures |r| == |ds|
  {
    seq(|ds|, j requires 0 <= j < |ds| => Sum(Picked(keys, vals, ds[j])))
  }

  /** The size of each group, for the keys `ds` in that order. */
  function GroupSizes<K(==), V>(ds: seq<K>, keys: seq<K>, vals: seq<V>): (r: seq<real>)
    requires |keys| == |vals|
    ensures |r| == |ds|
  {
    seq(|ds|, j requires 0 <= j < |ds| => |Picked(keys, vals, ds[j])| as real)
  }

  function Ones(n: nat): (r: seq<real>)
    ensures |r| == n
  {
    seq(n, _ => 1.0)
  }

  function Map<T, U>(s: seq<T>, f: T -> U): (r: seq<U>)
    ensures |r| == |s|
  {
    seq(|s|, i requires 0 <= i < |s| => f(s[i]))
  }

  /** Mapping a list with one more element adds that element's image at the end. */
  lemma MapSnoc<T, U>(s: seq<T>, f: T -> U)
    requires s != []
    ensures Map(s, f) == Map(s[..|s| - 1], f) + [f(s[|s| - 1])]
  {
  }

  /** `f` tells the elements of `s` apart. */
  ghost predicate InjectiveOn<T, U>(s: seq<T>, f: T -> U) {
    forall i, j :: 0 <= i < |s| && 0 <= j < |s| && f(s[i]) == f(s[j]) ==> s[i] == s[j]
  }

  /** The deduplicated list holds each element of `s` once and nothing else. */
  lemma {:induction false} DedupElements<T>(s: seq<T>)
    ensures Distinct(Dedup(s))
    ensures forall x :: x in Dedup(s) <==> x in s
  {
    if s != [] {
      DedupElements(s[..|s| - 1]);
      assert s == s[..|s| - 1] + [s[|s| - 1]];
    }
  }

  /** The deduplicated list keeps the order of first appearance. */
  lemma {:induction false} DedupOrder<T>(s: seq<T>)
    ensures forall x :: x in Dedup(s) ==> x in s
    ensures forall i, j :: 0 <= i < j < |Dedup(s)| ==> IndexOf(s, Dedup(s)[i]) < IndexOf(s, Dedup(s)[j])
  {
    DedupElements(s);
    if s != [] {
      var front, x := s[..|s| - 1], s[|s| - 1];
      DedupOrder(front);
      DedupElements(front);
      var d := Dedup(front);
      forall y | y in d ensures IndexOf(s, y) == IndexOf(front, y) {
        assert s[..|s| - 1] == front;
      }
      if x !in d {
        assert IndexOf(s, x) == |s| - 1;
        forall i | 0 <= i < |d| ensures IndexOf(s, d[i]) < |s| - 1 {
          assert d[i] in d;
        }
      }
    }
  }

  /** Distinct elements of a deduplicated list have distinct first positions. */
  lemma DedupPositions<T>(s: seq<T>, x: T)
    requires x in s
    ensures x in Dedup(s) && Dedup(s)[IndexOf(Dedup(s), x)] == x
  {
    DedupElements(s);
  }

  /** Keys that never occur pick nothing; keys that occur pick something. */
  lemma {:induction false} PickedEmpty<K, V>(keys: seq<K>, vals: seq<V>, k: K)
    requires |keys| == |vals|
    ensures Picked(keys, vals, k) == [] <==> k !in keys
  {
    if keys != [] {
      PickedEmpty(keys[..|keys| - 1], vals[..|vals| - 1], k);
      assert keys == keys[..|keys| - 1] + [keys[|keys| - 1]];
    }
  }

  /** One more key and value add the value to its own group only. */
  lemma PickedSnoc<K, V>(keys: seq<K>, vals: seq<V>, x: K, v: V, k: K)
    requires |keys| == |vals|
    ensures Picked(keys + [x], vals + [v], k) == Picked(keys, vals, k) + (if x == k then [v] else [])
  {
    assert (keys + [x])[..|keys|] == keys;
    assert (vals + [v])[..|vals|] == vals;
  }

  /** A new pair adds its value to the sum of its key's group, if that key is listed. */
  lemma {:induction false} GroupSumsSnoc<K>(ds: seq<K>, keys: seq<K>, vals: seq<real>, x: K, v: real)
    requires |keys| == |vals| && Distinct(ds)
    ensures Sum(GroupSums(ds, keys + [x], vals + [v]))
      == Sum(GroupSums(ds, keys, vals)) + (if x in ds then v else 0.0)
  {
    if ds != [] {
      var front, y := ds[..|ds| - 1], ds[|ds| - 1];
      GroupSumsSnoc(front, keys, vals, x, v);
      assert GroupSums(ds, keys + [x], vals + [v])[..|front|] == GroupSums(front, keys + [x], vals + [v]);
      assert GroupSums(ds, keys, vals)[..|front|] == GroupSums(front, keys, vals);
      PickedSnoc(keys, vals, x, v, y);
      SumAppend(Picked(keys, vals, y), if x == y then [v] else []);
      assert Sum([v]) == Sum([]) + v;
      assert x in ds <==> x in front || x == y;
      assert y !in front;
    }
  }

  /** Over distinct keys that cover every key used, the group sums add up to the sum of all
      values: each value is in exactly one group. */
  lemma {:induction false} GroupSumsCovering<K>(ds: seq<K>, keys: seq<K>, vals: seq<real>)
    requires |keys| == |vals| && Distinct(ds)
    requires forall i :: 0 <= i < |keys| ==> keys[i] in ds
    ensures Sum(GroupSums(ds, keys, vals)) == Sum(vals)
  {
    if keys == [] {
      NothingPicked(ds, vals);
    } else {
      var front, x := keys[..|keys| - 1], keys[|keys| - 1];
      var fvals, v := vals[..|vals| - 1], vals[|vals| - 1];
      assert keys == front + [x] && vals == fvals + [v];
      GroupSumsCovering(ds, front, fvals);
      GroupSumsSnoc(ds, front, fvals, x, v);
    }
  }

  /** With no keys every group is empty. */
  lemma {:induction false} NothingPicked<K>(ds: seq<K>, vals: seq<real>)
    requires |vals| == 0
    ensures Sum(GroupSums(ds, [], vals)) == 0.0
  {
    if ds != [] {
      assert GroupSums(ds, [], vals)[..|ds| - 1] == GroupSums(ds[..|ds| - 1], [], vals);
      NothingPicked(ds[..|ds| - 1], vals);
    }
  }

  /** Summing every group's sum gives the sum of all values. */
  lemma GroupSumsTotal<K>(keys: seq<K>, vals: seq<real>)
    requires |keys| == |vals|
    ensures Sum(GroupSums(Dedup(keys), keys, vals)) == Sum(vals)
  {
    DedupElements(keys);
    GroupSumsCovering(Dedup(keys), keys, vals);
  }

  /** Counting is summing ones. */
  lemma {:induction false} PickedOnes<K, V>(keys: seq<K>, vals: seq<V>, k: K)
    requires |keys| == |vals|
    ensures Sum(Picked(keys, Ones(|keys|), k)) == |Picked(keys, vals, k)| as real
  {
    if keys != [] {
      var n := |keys|;
      assert Ones(n)[..n - 1] == Ones(n - 1);
      PickedOnes(keys[..n - 1], vals[..n - 1], k);
      SumAppend(Picked(keys[..n - 1], Ones(n - 1), k), if keys[n - 1] == k then [1.0] else []);
      assert Sum([1.0]) == Sum([]) + 1.0;
    }
  }

  /** Over distinct keys that cover every key used, the group sizes add up to the number of
      values: every value lands in exactly one group. */
  lemma GroupSizesCovering<K, V>(ds: seq<K>, keys: seq<K>, vals: seq<V>)
    requires |keys| == |vals| && Distinct(ds)
    requires forall i :: 0 <= i < |keys| ==> keys[i] in ds
    ensures Sum(GroupSizes(ds, keys, vals)) == |keys| as real
  {
    forall j | 0 <= j < |ds| ensures GroupSizes(ds, keys, vals)[j] == GroupSums(ds, keys, Ones(|keys|))[j] {
      PickedOnes(keys, vals, ds[j]);
    }
    assert GroupSizes(ds, keys, vals) == GroupSums(ds, keys, Ones(|keys|));
    GroupSumsCovering(ds, keys, Ones(|keys|));
    OnesSum(|keys|);
  }

  lemma {:induction false} OnesSum(n: nat)
    ensures Sum(Ones(n)) == n as real
  {
    if n > 0 {
      assert Ones(n)[..n - 1] == Ones(n - 1);
      OnesSum(n - 1);
    }
  }

  /** Where the `m`-th value of a group came from: a position whose key is the group's. */
  lemma {:induction false} PickedOrigin<K, V>(keys: seq<K>, vals: seq<V>, k: K, m: nat) returns (i: nat)
    requires |keys| == |vals| && m < |Picked(keys, vals, k)|
    ensures i < |keys| && keys[i] == k && vals[i] == Picked(keys, vals, k)[m]
  {
    var n := |keys|;
    var front := Picked(keys[..n - 1], vals[..n - 1], k);
    if m < |front| {
      i := PickedOrigin(keys[..n - 1], vals[..n - 1], k, m);
    } else {
      i := n - 1;
    }
  }

  /** A value at two positions occurs at least twice. */
  lemma TwoPositions<T>(s: seq<T>, i: nat, j: nat)
    requires i < j < |s| && s[i] == s[j]
    ensures multiset(s)[s[i]] >= 2
  {
    assert s == s[..j] + s[j..];
    assert s[i] in multiset(s[..j]);
    assert s[j] in multiset(s[j..]);
  }

  /** In a list without repeats each element occurs once. */
  lemma OnceIn<T>(s: seq<T>, a: nat)
    requires Distinct(s) && a < |s|
    ensures multiset(s)[s[a]] == 1
  {
    var x, before, after := s[a], s[..a], s[a + 1..];
    assert s == before + [x] + after;
    assert forall i :: 0 <= i < |after| ==> after[i] == s[a + 1 + i];
    assert x !in multiset(before);
    assert x !in multiset(after);
  }

  /** Reordering a list without repeats leaves it without repeats. */
  lemma DistinctReordered<T>(s: seq<T>, t: seq<T>)
    requires Distinct(s) && multiset(t) == multiset(s)
    ensures Distinct(t)
  {
    forall i, j | 0 <= i < j < |t| ensures t[i] != t[j] {
      if t[i] == t[j] {
        TwoPositions(t, i, j);
        assert t[i] in multiset(s);
        var a :| 0 <= a < |s| && s[a] == t[i];
        OnceIn(s, a);
        assert false;
      }
    }
  }

  /** Renaming the elements with an injective `f` commutes with deduplication. */
  lemma {:induction false} DedupMap<T, U>(s: seq<T>, f: T -> U)
    requires InjectiveOn(s, f)
    ensures Dedup(Map(s, f)) == Map(Dedup(s), f)
  {
    if s != [] {
      var front, x := s[..|s| - 1], s[|s| - 1];
      assert Map(s, f)[..|s| - 1] == Map(front, f);
      assert forall a :: a in front ==> a in s;
      DedupMap(front, f);
      DedupElements(front);
      var d := Dedup(front);
      if x in d {
        assert Map(d, f)[IndexOf(d, x)] == f(x);
      } else {
        forall a | a in Map(d, f) ensures a != f(x) {
          var i :| 0 <= i < |d| && Map(d, f)[i] == a;
          assert d[i] in front;
        }
        assert Map(d + [x], f) == Map(d, f) + [f(x)];
      }
    }
  }

  /** Renaming the keys with an injective `f` keeps every group. */
  lemma {:induction false} PickedMap<K, U, V>(keys: seq<K>, vals: seq<V>, f: K -> U, k: K)
    requires |keys| == |vals| && InjectiveOn(keys + [k], f)
    ensures Picked(Map(keys, f), vals, f(k)) == Picked(keys, vals, k)
  {
    if keys != [] {
      var front, n := keys[..|keys| - 1], |keys|;
      assert Map(keys, f)[..n - 1] == Map(front, f);
      var all, some := keys + [k], front + [k];
      forall i, j | 0 <= i < n && 0 <= j < n && f(some[i]) == f(some[j]) ensures some[i] == some[j] {
        var i', j' := if i < n - 1 then i else n, if j < n - 1 then j else n;
        assert some[i] == all[i'] && some[j] == all[j'];
      }
      PickedMap(front, vals[..n - 1], f, k);
      assert all[n - 1] == keys[n - 1] && all[n] == k;
    }
  }
}
