/**
 * Frequency tables, the model of the dataframe's `value_counts()`: one
 * (value, count) entry per distinct value, ordered by non-increasing count.
 * Values that never occur get no entry.
 */
module Counting {
  import opened Sequences
  import opened Sorting

  type Counts<K> = seq<(K, nat)>

  /** How many times `k` occurs in `xs`. */
  function Occurrences<K(==)>(xs: seq<K>, k: K): nat
  {
    if xs == [] then 0 else (if xs[0] == k then 1 else 0) + Occurrences(xs[1..], k)
  }

  lemma {:induction false} OccurrencesConcat<K>(a: seq<K>, b: seq<K>, k: K)
    ensures Occurrences(a + b, k) == Occurrences(a, k) + Occurrences(b, k)
  {
    if a == [] {
      assert a + b == b;
    } else {
      assert (a + b)[1..] == a[1..] + b;
      OccurrencesConcat(a[1..], b, k);
    }
  }

  /** A value occurs at least once exactly when it is an element. */
  lemma {:induction false} OccurrencesPositive<K>(xs: seq<K>, k: K)
    ensures Occurrences(xs, k) > 0 <==> k in xs
  {
    if xs != [] {
      OccurrencesPositive(xs[1..], k);
      assert xs == [xs[0]] + xs[1..];
    }
  }

  function KeyOf<K>(e: (K, nat)): K
  {
    e.0
  }

  function CountIn<K>(e: (K, nat)): nat
  {
    e.1
  }

  /** The values column of a table. */
  function Keys<K>(t: Counts<K>): seq<K>
  {
    Map(t, KeyOf)
  }

  /** The sum of the counts column. */
  function Total<K>(t: Counts<K>): nat
  {
    SumOf(t, CountIn)
  }

  ghost predicate DistinctKeys<K>(t: Counts<K>)
  {
    InjectiveOn(t, KeyOf)
  }

  ghost predicate PositiveCounts<K>(t: Counts<K>)
  {
    forall i :: 0 <= i < |t| ==> t[i].1 > 0
  }

  /** Non-increasing counts, the order `value_counts` sorts by. */
  ghost predicate ByCountDesc<K>(t: Counts<K>)
  {
    forall i, j :: 0 <= i < j < |t| ==> t[i].1 >= t[j].1
  }

  /**
   * `t` is a frequency table of `xs`: distinct values, each with the number
   * of times it occurs in `xs`, and every element of `xs` has an entry.
   */
  ghost predicate CountsOf<K>(t: Counts<K>, xs: seq<K>)
  {
    && DistinctKeys(t)
    && (forall i :: 0 <= i < |t| ==> t[i].1 == Occurrences(xs, t[i].0) && t[i].1 > 0)
    && (forall i :: 0 <= i < |xs| ==> xs[i] in Keys(t))
  }

  /** The count recorded for `k`, or 0 when `k` has no entry. */
  function CountOf<K(==)>(t: Counts<K>, k: K): nat
  {
    if t == [] then 0 else if t[0].0 == k then t[0].1 else CountOf(t[1..], k)
  }

  /** Records one more occurrence of `k`. */
  function Bump<K(==)>(t: Counts<K>, k: K): Counts<K>
  {
    if t == [] then [(k, 1)]
    else if t[0].0 == k then [(k, t[0].1 + 1)] + t[1..]
    else [t[0]] + Bump(t[1..], k)
  }

  /** The unsorted frequency table, accumulated one element at a time. */
  function Tally<K(==)>(xs: seq<K>): Counts<K>
  {
    if xs == [] then [] else Bump(Tally(xs[1..]), xs[0])
  }

  lemma KeysMembers<K>(t: Counts<K>, k: K)
    ensures k in Keys(t) <==> exists i :: 0 <= i < |t| && t[i].0 == k
  {
    if k in Keys(t) {
      var i :| 0 <= i < |Keys(t)| && Keys(t)[i] == k;
      assert t[i].0 == k;
    }
    if exists i :: 0 <= i < |t| && t[i].0 == k {
      var i :| 0 <= i < |t| && t[i].0 == k;
      assert Keys(t)[i] == k;
    }
  }

  lemma {:induction false} KeysTail<K>(t: Counts<K>, k: K)
    requires t != []
    ensures k in Keys(t) <==> k == t[0].0 || k in Keys(t[1..])
  {
    KeysMembers(t, k);
    KeysMembers(t[1..], k);
    if k in Keys(t) && k != t[0].0 {
      var i :| 0 <= i < |t| && t[i].0 == k;
      assert t[1..][i - 1].0 == k;
    }
    if k in Keys(t[1..]) {
      var i :| 0 <= i < |t[1..]| && t[1..][i].0 == k;
      assert t[i + 1].0 == k;
    }
  }

  lemma {:induction false} DistinctTail<K>(t: Counts<K>)
    requires t != [] && DistinctKeys(t)
    ensures DistinctKeys(t[1..]) && t[0].0 !in Keys(t[1..])
  {
    forall i, j | 0 <= i < j < |t[1..]|
      ensures t[1..][i].0 != t[1..][j].0
    {
      assert t[1..][i] == t[i + 1] && t[1..][j] == t[j + 1];
    }
    forall i | 0 <= i < |t[1..]|
      ensures t[1..][i].0 != t[0].0
    {
      assert t[1..][i] == t[i + 1];
    }
    KeysMembers(t[1..], t[0].0);
  }

  lemma {:induction false} DistinctCons<K>(e: (K, nat), t: Counts<K>)
    requires DistinctKeys(t) && e.0 !in Keys(t)
    ensures DistinctKeys([e] + t)
  {
    var r := [e] + t;
    forall i, j | 0 <= i < j < |r|
      ensures r[i].0 != r[j].0
    {
      assert r[j] == t[j - 1];
      if i > 0 {
        assert r[i] == t[i - 1];
      } else {
        assert Keys(t)[j - 1] == t[j - 1].0;
      }
    }
  }

  lemma {:induction false} BumpSpec<K>(t: Counts<K>, k: K)
    requires DistinctKeys(t) && PositiveCounts(t)
    ensures DistinctKeys(Bump(t, k)) && PositiveCounts(Bump(t, k))
    ensures Total(Bump(t, k)) == Total(t) + 1
    ensures forall j :: CountOf(Bump(t, k), j) == CountOf(t, j) + (if j == k then 1 else 0)
    ensures forall j :: j in Keys(Bump(t, k)) <==> j == k || j in Keys(t)
  {
    var r := Bump(t, k);
    if t == [] {
      assert Keys(r) == [k];
    } else if t[0].0 == k {
      DistinctTail(t);
      assert r[1..] == t[1..];
      forall j
        ensures j in Keys(r) <==> j == k || j in Keys(t)
      {
        KeysTail(r, j);
        KeysTail(t, j);
      }
      DistinctCons((k, t[0].1 + 1), t[1..]);
      assert r == [(k, t[0].1 + 1)] + t[1..];
      assert t == [t[0]] + t[1..];
    } else {
      DistinctTail(t);
      BumpSpec(t[1..], k);
      var rest := Bump(t[1..], k);
      assert r == [t[0]] + rest && r[1..] == rest;
      forall j
        ensures j in Keys(r) <==> j == k || j in Keys(t)
      {
        KeysTail(r, j);
        KeysTail(t, j);
      }
      DistinctCons(t[0], rest);
      assert t == [t[0]] + t[1..];
    }
  }

  /** An entry of a table with distinct values is what CountOf reports for its value. */
  lemma {:induction false} CountOfEntry<K>(t: Counts<K>, i: nat)
    requires DistinctKeys(t) && i < |t|
    ensures CountOf(t, t[i].0) == t[i].1
  {
    if i > 0 {
      DistinctTail(t);
      assert Keys(t[1..])[i - 1] == t[i].0;
      CountOfEntry(t[1..], i - 1);
    }
  }

  lemma {:induction false} TallySpec<K>(xs: seq<K>)
    ensures DistinctKeys(Tally(xs)) && PositiveCounts(Tally(xs))
    ensures Total(Tally(xs)) == |xs|
    ensures forall k :: CountOf(Tally(xs), k) == Occurrences(xs, k)
    ensures forall k :: k in Keys(Tally(xs)) <==> k in xs
  {
    if xs != [] {
      TallySpec(xs[1..]);
      BumpSpec(Tally(xs[1..]), xs[0]);
      assert xs == [xs[0]] + xs[1..];
    }
  }

  lemma TallyCountsOf<K>(xs: seq<K>)
    ensures CountsOf(Tally(xs), xs)
  {
    var t := Tally(xs);
    TallySpec(xs);
    forall i | 0 <= i < |t|
      ensures t[i].1 == Occurrences(xs, t[i].0) && t[i].1 > 0
    {
      CountOfEntry(t, i);
      assert CountOf(t, t[i].0) == Occurrences(xs, t[i].0);
    }
  }

  /** A reordering of a frequency table is a frequency table of the same elements. */
  lemma PermutedCountsOf<K>(t: Counts<K>, u: Counts<K>, xs: seq<K>)
    requires CountsOf(t, xs) && multiset(u) == multiset(t) && |u| == |t| && DistinctKeys(u)
    ensures CountsOf(u, xs)
  {
    forall i | 0 <= i < |u|
      ensures u[i].1 == Occurrences(xs, u[i].0) && u[i].1 > 0
    {
      assert u[i] in multiset(t);
    }
    forall i | 0 <= i < |xs|
      ensures xs[i] in Keys(u)
    {
      KeysMembers(t, xs[i]);
      var j :| 0 <= j < |t| && t[j].0 == xs[i];
      assert t[j] in multiset(u);
      var m :| 0 <= m < |u| && u[m] == t[j];
      KeysMembers(u, xs[i]);
    }
  }

  predicate DifferentKeys<K(==)>(a: (K, nat), b: (K, nat))
  {
    a.0 != b.0
  }

  predicate NotFewer<K>(a: (K, nat), b: (K, nat))
  {
    a.1 >= b.1
  }

  /** Keeping only some rows of a table keeps its values distinct and its counts ordered. */
  lemma FilterTable<K>(t: Counts<K>, p: ((K, nat)) -> bool)
    requires DistinctKeys(t) && ByCountDesc(t)
    ensures DistinctKeys(Filter(t, p)) && ByCountDesc(Filter(t, p))
  {
    assert Pairwise(t, DifferentKeys);
    FilterPairwise(t, p, DifferentKeys);
    assert Pairwise(t, NotFewer);
    FilterPairwise(t, p, NotFewer);
  }

  /** `value_counts()`: the frequency table sorted by non-increasing count. */
  function ValueCounts<K(==)>(xs: seq<K>): (r: Counts<K>)
    ensures CountsOf(r, xs)
    ensures ByCountDesc(r)
    ensures Total(r) == |xs|
  {
    var key := ByCount;
    var t := Tally(xs);
    TallySpec(xs);
    TallyCountsOf(xs);
    SortBySorted(t, key);
    SortBySumOf(t, key, CountIn);
    SortByInjective(t, key, KeyOf);
    PermutedCountsOf(t, SortBy(t, key), xs);
    SortBy(t, key)
  }

  /** The sort key of `value_counts`: larger counts first. */
  function ByCount<K>(e: (K, nat)): int
  {
    -(e.1 as int)
  }

  /** A tally already in non-increasing count order is `value_counts`' answer as it stands. */
  lemma ValueCountsOfSorted<K>(xs: seq<K>)
    requires ByCountDesc(Tally(xs))
    ensures ValueCounts(xs) == Tally(xs)
  {
    SortBySortedUnchanged(Tally(xs), ByCount);
  }
}
