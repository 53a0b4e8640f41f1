/** The behaviour of JavaScript's `Array.prototype.sort` with a consistent comparator.
    Since ES2019 that sort is stable, and a stable sort's output is determined by its
    input and the comparator, so a stable insertion sort is an exact specification of it.
    `le(a, b)` holds when the comparator does not put `b` strictly before `a`. */
module Sorting {

  /** `le` is total and transitive: what a consistent comparator gives. */
  ghost predicate TotalPreorder<T(!new)>(le: (T, T) -> bool) {
    && (forall x, y :: le(x, y) || le(y, x))
    && (forall x, y, z :: le(x, y) && le(y, z) ==> le(x, z))
  }

  ghost predicate Sorted<T>(s: seq<T>, le: (T, T) -> bool) {
    forall i, j :: 0 <= i < j < |s| ==> le(s[i], s[j])
  }

  /** `x` and `v` compare equal. */
  predicate Equiv<T>(x: T, v: T, le: (T, T) -> bool) {
    le(x, v) && le(v, x)
  }

  /** The elements of `s` that compare equal to `v`, in their order in `s`. */
  function Ties<T>(s: seq<T>, v: T, le: (T, T) -> bool): (r: seq<T>)
    ensures |r| <= |s|
  {
    if s == [] then []
    else (if Equiv(s[0], v, le) then [s[0]] else []) + Ties(s[1..], v, le)
  }

  /** Puts `x` in front of the first element it does not compare after. */
  function Insert<T>(x: T, s: seq<T>, le: (T, T) -> bool): (r: seq<T>)
    ensures multiset(r) == multiset(s) + multiset{x}
    ensures |r| == |s| + 1
  {
    if s == [] || le(x, s[0]) then [x] + s
    else
      assert s == [s[0]] + s[1..];
      [s[0]] + Insert(x, s[1..], le)
  }

  /** Stable sort: inserting from the back keeps equal elements in input order. */
  function Sort<T>(s: seq<T>, le: (T, T) -> bool): (r: seq<T>)
    ensures multiset(r) == multiset(s)
    ensures |r| == |s|
  {
    if s == [] then []
    else
      assert s == [s[0]] + s[1..];
      Insert(s[0], Sort(s[1..], le), le)
  }

  lemma {:induction false} InsertSorted<T(!new)>(x: T, s: seq<T>, le: (T, T) -> bool)
    requires TotalPreorder(le) && Sorted(s, le)
    ensures Sorted(Insert(x, s, le), le)
  {
    if s == [] || le(x, s[0]) {
      var r := [x] + s;
      forall i, j | 0 <= i < j < |r| ensures le(r[i], r[j]) {
        if i == 0 && j > 1 {
          assert le(x, s[0]) && le(s[0], s[j - 1]);
        }
      }
    } else {
      InsertSorted(x, s[1..], le);
      var t := Insert(x, s[1..], le);
      assert le(s[0], x);
      forall k | 0 <= k < |t| ensures le(s[0], t[k]) {
        assert t[k] in multiset(t);
        assert t[k] == x || t[k] in multiset(s[1..]);
        if t[k] != x {
          var m :| 0 <= m < |s[1..]| && s[1..][m] == t[k];
          assert s[m + 1] == t[k];
        }
      }
      var r := [s[0]] + t;
      forall i, j | 0 <= i < j < |r| ensures le(r[i], r[j]) {
        if i > 0 {
          assert r[i] == t[i - 1] && r[j] == t[j - 1];
        }
      }
    }
  }

  lemma {:induction false} SortSorted<T(!new)>(s: seq<T>, le: (T, T) -> bool)
    requires TotalPreorder(le)
    ensures Sorted(Sort(s, le), le)
  {
    if s != [] {
      SortSorted(s[1..], le);
      InsertSorted(s[0], Sort(s[1..], le), le);
    }
  }

  /** When `x` compares equal to `v`, nothing that compares strictly before `x` does. */
  ghost predicate NoEarlierTie<T(!new)>(x: T, v: T, le: (T, T) -> bool) {
    Equiv(x, v, le) ==> forall y :: !le(x, y) ==> !Equiv(y, v, le)
  }

  lemma {:induction false} InsertTies<T(!new)>(x: T, s: seq<T>, v: T, le: (T, T) -> bool)
    requires NoEarlierTie(x, v, le)
    ensures Ties(Insert(x, s, le), v, le)
         == (if Equiv(x, v, le) then [x] else []) + Ties(s, v, le)
  {
    var hx := if Equiv(x, v, le) then [x] else [];
    if s == [] || le(x, s[0]) {
      assert ([x] + s)[0] == x && ([x] + s)[1..] == s;
    } else {
      var t := Insert(x, s[1..], le);
      InsertTies(x, s[1..], v, le);
      assert ([s[0]] + t)[0] == s[0] && ([s[0]] + t)[1..] == t;
      var h0 := if Equiv(s[0], v, le) then [s[0]] else [];
      assert Ties(Insert(x, s, le), v, le) == h0 + (hx + Ties(s[1..], v, le));
      assert Ties(s, v, le) == h0 + Ties(s[1..], v, le);
    }
  }

  /** With a consistent comparator no element has an earlier tie. */
  lemma NoEarlierTies<T(!new)>(x: T, v: T, le: (T, T) -> bool)
    requires TotalPreorder(le)
    ensures NoEarlierTie(x, v, le)
  {
    forall y | Equiv(x, v, le) && !le(x, y) ensures !Equiv(y, v, le) {
      assert le(x, v);
      assert le(v, y) ==> le(x, y);
    }
  }

  /** Stability: elements that compare equal keep their relative input order. */
  lemma {:induction false} SortStable<T(!new)>(s: seq<T>, v: T, le: (T, T) -> bool)
    requires TotalPreorder(le)
    ensures Ties(Sort(s, le), v, le) == Ties(s, v, le)
  {
    if s != [] {
      SortStable(s[1..], v, le);
      NoEarlierTies(s[0], v, le);
      InsertTies(s[0], Sort(s[1..], le), v, le);
    }
  }
}
