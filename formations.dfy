/**
 * The "Formações" tab: the ten most frequent formation labels, for the home
 * side and for the away side separately. Rows without a label are not counted.
 */
module FormationView {
  import opened Wrappers
  import opened Sequences
  import opened Counting
  import opened Matches

  /** How many labels `head(10)` keeps. */
  const TopN: nat := 10

  /** The labels of a column, missing ones dropped. */
  function Present(col: seq<Option<string>>): seq<string>
  {
    if col == [] then []
    else (if col[0].Some? then [col[0].value] else []) + Present(col[1..])
  }

  lemma {:induction false} PresentOccurrences(col: seq<Option<string>>, k: string)
    ensures Occurrences(Present(col), k) == Occurrences(col, Some(k))
  {
    if col != [] {
      PresentOccurrences(col[1..], k);
      var head := if col[0].Some? then [col[0].value] else [];
      OccurrencesConcat(head, Present(col[1..]), k);
    }
  }

  /**
   * `value_counts().head(10)`: at most ten labels with their number of rows,
   * most frequent first; a label that occurs but was cut off occurs no more
   * often than any kept label, and is cut off only when ten are kept.
   */
  function TopFormations(col: seq<Option<string>>): (r: Counts<string>)
    ensures |r| <= TopN && DistinctKeys(r) && ByCountDesc(r)
    ensures forall i :: 0 <= i < |r| ==> r[i].1 == Occurrences(col, Some(r[i].0)) && r[i].1 > 0
    ensures forall k :: Some(k) in col && k !in Keys(r) ==>
      |r| == TopN && forall i :: 0 <= i < |r| ==> r[i].1 >= Occurrences(col, Some(k))
  {
    var counts := ValueCounts(Present(col));
    var r := counts[..if |counts| < TopN then |counts| else TopN];
    TopIsPrefix(col, counts, r);
    r
  }

  lemma TopIsPrefix(col: seq<Option<string>>, counts: Counts<string>, r: Counts<string>)
    requires CountsOf(counts, Present(col)) && ByCountDesc(counts)
    requires r == counts[..if |counts| < TopN then |counts| else TopN]
    ensures |r| <= TopN && DistinctKeys(r) && ByCountDesc(r)
    ensures forall i :: 0 <= i < |r| ==> r[i].1 == Occurrences(col, Some(r[i].0)) && r[i].1 > 0
    ensures forall k :: Some(k) in col && k !in Keys(r) ==>
      |r| == TopN && forall i :: 0 <= i < |r| ==> r[i].1 >= Occurrences(col, Some(k))
  {
    forall i, j | 0 <= i < j < |r|
      ensures r[i].0 != r[j].0
    {
      assert r[i] == counts[i] && r[j] == counts[j];
    }
    forall i | 0 <= i < |r|
      ensures r[i].1 == Occurrences(col, Some(r[i].0))
    {
      PresentOccurrences(col, r[i].0);
    }
    forall k | Some(k) in col && k !in Keys(r)
      ensures |r| == TopN && forall i :: 0 <= i < |r| ==> r[i].1 >= Occurrences(col, Some(k))
    {
      CutOff(col, counts, r, k);
    }
  }

  /** A label left out of the kept prefix sits after all kept rows. */
  lemma CutOff(col: seq<Option<string>>, counts: Counts<string>, r: Counts<string>, k: string)
    requires CountsOf(counts, Present(col)) && ByCountDesc(counts)
    requires r == counts[..if |counts| < TopN then |counts| else TopN]
    requires Some(k) in col && k !in Keys(r)
    ensures |r| == TopN && forall i :: 0 <= i < |r| ==> r[i].1 >= Occurrences(col, Some(k))
  {
    PresentOccurrences(col, k);
    OccurrencesPositive(col, Some(k));
    OccurrencesPositive(Present(col), k);
    var p :| 0 <= p < |Present(col)| && Present(col)[p] == k;
    assert k in Keys(counts);
    var j := DroppedKey(counts, |r|, k);
    assert counts[j].1 == Occurrences(Present(col), k);
    forall i | 0 <= i < |r|
      ensures r[i].1 >= Occurrences(col, Some(k))
    {
      assert r[i] == counts[i];
    }
  }

  /** A key missing from the first `n` rows of a table sorted by count sits after them, with no larger count. */
  lemma DroppedKey<K>(counts: Counts<K>, n: nat, k: K) returns (j: nat)
    requires n <= |counts| && ByCountDesc(counts)
    requires k in Keys(counts) && k !in Keys(counts[..n])
    ensures n <= j < |counts| && counts[j].0 == k
    ensures forall i :: 0 <= i < n ==> counts[i].1 >= counts[j].1
  {
    KeysMembers(counts, k);
    KeysMembers(counts[..n], k);
    j :| 0 <= j < |counts| && counts[j].0 == k;
  }

  function HomeFormations(s: seq<Match>): seq<Option<string>>
  {
    Map(s, (m: Match) => m.homeFormation)
  }

  function AwayFormations(s: seq<Match>): seq<Option<string>>
  {
    Map(s, (m: Match) => m.awayFormation)
  }
}
