/**
 * Insertion sort by an integer key. It stands for the dataframe's
 * `sort_values` and the descending sort inside `value_counts`; it places an
 * element before the existing ones with an equal key, so it is stable, but no
 * property below depends on the order among equal keys.
 */
module Sorting {
  import opened Sequences

  ghost predicate SortedBy<T>(s: seq<T>, key: T -> int)
  {
    forall i, j :: 0 <= i < j < |s| ==> key(s[i]) <= key(s[j])
  }

  function Insert<T>(x: T, s: seq<T>, key: T -> int): (r: seq<T>)
    ensures |r| == |s| + 1
    ensures multiset(r) == multiset(s) + multiset{x}
  {
    if s == [] then [x]
    else if key(x) <= key(s[0]) then [x] + s
    else
      assert s == [s[0]] + s[1..];
      [s[0]] + Insert(x, s[1..], key)
  }

  function SortBy<T>(s: seq<T>, key: T -> int): (r: seq<T>)
    ensures |r| == |s|
    ensures multiset(r) == multiset(s)
  {
    if s == [] then []
    else
      assert s == [s[0]] + s[1..];
      Insert(s[0], SortBy(s[1..], key), key)
  }

  lemma {:induction false} InsertSorted<T>(x: T, s: seq<T>, key: T -> int)
    requires SortedBy(s, key)
    ensures SortedBy(Insert(x, s, key), key)
  {
    if s != [] && key(s[0]) < key(x) {
      var tail := Insert(x, s[1..], key);
      InsertSorted(x, s[1..], key);
      forall j | 0 <= j < |tail|
        ensures key(s[0]) <= key(tail[j])
      {
        assert tail[j] in multiset(tail);
        if tail[j] != x {
          assert tail[j] in s[1..];
          var m :| 0 <= m < |s[1..]| && s[1..][m] == tail[j];
          assert s[m + 1] == tail[j];
        }
      }
    }
  }

  /** The sorted sequence is ordered by non-decreasing key. */
  lemma {:induction false} SortBySorted<T>(s: seq<T>, key: T -> int)
    ensures SortedBy(SortBy(s, key), key)
  {
    if s != [] {
      SortBySorted(s[1..], key);
      InsertSorted(s[0], SortBy(s[1..], key), key);
    }
  }

  /** An already sorted sequence comes back unchanged: ties keep their order. */
  lemma {:induction false} SortBySortedUnchanged<T>(s: seq<T>, key: T -> int)
    requires SortedBy(s, key)
    ensures SortBy(s, key) == s
  {
    if s != [] {
      assert SortedBy(s[1..], key);
      SortBySortedUnchanged(s[1..], key);
      if |s| > 1 {
        assert key(s[0]) <= key(s[1..][0]);
      }
      assert [s[0]] + s[1..] == s;
    }
  }

  lemma {:induction false} InsertSumOf<T>(x: T, s: seq<T>, key: T -> int, f: T -> nat)
    ensures SumOf(Insert(x, s, key), f) == f(x) + SumOf(s, f)
  {
    if s != [] && key(s[0]) < key(x) {
      InsertSumOf(x, s[1..], key, f);
      assert ([s[0]] + Insert(x, s[1..], key))[1..] == Insert(x, s[1..], key);
    } else if s != [] {
      assert ([x] + s)[1..] == s;
    }
  }

  /** Sorting does not change a column sum. */
  lemma {:induction false} SortBySumOf<T>(s: seq<T>, key: T -> int, f: T -> nat)
    ensures SumOf(SortBy(s, key), f) == SumOf(s, f)
  {
    if s != [] {
      SortBySumOf(s[1..], key, f);
      InsertSumOf(s[0], SortBy(s[1..], key), key, f);
    }
  }

  /** No two elements agree on `f`. */
  ghost predicate InjectiveOn<T, U>(s: seq<T>, f: T -> U)
  {
    forall i, j :: 0 <= i < j < |s| ==> f(s[i]) != f(s[j])
  }

  lemma {:induction false} InsertInjective<T, U>(x: T, s: seq<T>, key: T -> int, f: T -> U)
    requires InjectiveOn(s, f)
    requires forall y :: y in s ==> f(y) != f(x)
    ensures InjectiveOn(Insert(x, s, key), f)
  {
    if s == [] {
    } else if key(x) <= key(s[0]) {
      var r := [x] + s;
      forall i, j | 0 <= i < j < |r|
        ensures f(r[i]) != f(r[j])
      {
        if i > 0 {
          assert r[i] == s[i - 1] && r[j] == s[j - 1];
        } else {
          assert r[j] in s;
        }
      }
    } else {
      var tail := Insert(x, s[1..], key);
      InsertInjective(x, s[1..], key, f);
      var r := [s[0]] + tail;
      forall j | 0 <= j < |tail|
        ensures f(s[0]) != f(tail[j])
      {
        assert tail[j] in multiset(tail);
        if tail[j] != x {
          assert tail[j] in s[1..];
          var m :| 0 <= m < |s[1..]| && s[1..][m] == tail[j];
          assert s[m + 1] == tail[j];
        }
      }
      forall i, j | 0 <= i < j < |r|
        ensures f(r[i]) != f(r[j])
      {
        if i > 0 {
          assert r[i] == tail[i - 1] && r[j] == tail[j - 1];
        } else {
          assert r[j] == tail[j - 1];
        }
      }
    }
  }

  /** Sorting keeps a sequence free of duplicates under `f`. */
  lemma {:induction false} SortByInjective<T, U>(s: seq<T>, key: T -> int, f: T -> U)
    requires InjectiveOn(s, f)
    ensures InjectiveOn(SortBy(s, key), f)
  {
    if s != [] {
      assert InjectiveOn(s[1..], f);
      SortByInjective(s[1..], key, f);
      var sorted := SortBy(s[1..], key);
      forall y | y in sorted
        ensures f(y) != f(s[0])
      {
        assert y in multiset(sorted);
        var m :| 0 <= m < |s[1..]| && s[1..][m] == y;
        assert s[m + 1] == y;
      }
      InsertInjective(s[0], sorted, key, f);
    }
  }
}
