/**
 * The "Resumo Geral" tab: each team's share of the decisive matches in the
 * filtered view, as a percentage. Drawn matches are left out of both the
 * counts and the denominator.
 */
module WinRateView {
  import opened Sequences
  import opened Counting
  import opened Matches

  /** The matches that had a winner. */
  function Decisive(s: seq<Match>): seq<Match>
  {
    Filter(s, IsDecisive)
  }

  predicate IsDecisive(m: Match)
  {
    m.winner != Draw
  }

  lemma WinnersAreNotDraw(s: seq<Match>)
    ensures Draw !in Winners(Decisive(s))
  {
    var w := Winners(Decisive(s));
    FilterMembers(s, IsDecisive);
    forall i | 0 <= i < |w|
      ensures w[i] != Draw
    {
      assert w[i] == Decisive(s)[i].winner;
    }
  }

  /**
   * Wins per team among the decisive matches, sorted by non-increasing
   * count; the counts add up to the number of decisive matches and the draw
   * marker never appears as a team.
   */
  function WinCounts(s: seq<Match>): (r: Counts<string>)
    ensures CountsOf(r, Winners(Decisive(s))) && ByCountDesc(r)
    ensures Total(r) == |Decisive(s)|
    ensures Draw !in Keys(r)
    ensures r == [] <==> Decisive(s) == []
  {
    var r := ValueCounts(Winners(Decisive(s)));
    WinnersAreNotDraw(s);
    KeysMembers(r, Draw);
    assert Draw in Keys(r) ==> Occurrences(Winners(Decisive(s)), Draw) > 0;
    OccurrencesPositive(Winners(Decisive(s)), Draw);
    assert Decisive(s) != [] ==> Winners(Decisive(s))[0] in Keys(r);
    r
  }

  /** Sum of the percentage column. */
  function SumShares(table: seq<(string, real)>): real
  {
    if table == [] then 0.0 else table[0].1 + SumShares(table[1..])
  }

  /** Shares of a column of counts over `n` add up to the column total over `n`. */
  lemma {:induction false} SharesAddUp(counts: Counts<string>, table: seq<(string, real)>, n: nat)
    requires n > 0 && |table| == |counts|
    requires forall i :: 0 <= i < |table| ==> table[i].1 == counts[i].1 as real / n as real * 100.0
    ensures SumShares(table) == Total(counts) as real / n as real * 100.0
  {
    if counts != [] {
      SharesAddUp(counts[1..], table[1..], n);
      var a, b := counts[0].1 as real, Total(counts[1..]) as real;
      assert Total(counts) == counts[0].1 + Total(counts[1..]);
      assert a / n as real + b / n as real == (a + b) / n as real;
    }
  }

  /** When the shares are taken over the column total, they add up to 100. */
  lemma SharesTotal100(counts: Counts<string>, table: seq<(string, real)>, n: nat)
    requires n > 0 && |table| == |counts| && Total(counts) == n
    requires forall i :: 0 <= i < |table| ==> table[i].1 == counts[i].1 as real / n as real * 100.0
    ensures SumShares(table) == 100.0
  {
    SharesAddUp(counts, table, n);
    var x := n as real;
    assert x / x == 1.0;
  }

  /**
   * `value_counts(normalize=True)` divides each count by the total; the
   * in-place `*= 100` then turns the share column into percentages.
   */
  method Percentages(counts: Counts<string>, n: nat) returns (pct: seq<real>)
    requires counts != [] ==> n > 0
    ensures |pct| == |counts|
    ensures forall i :: 0 <= i < |counts| ==> pct[i] == counts[i].1 as real / n as real * 100.0
  {
    var share := new real[|counts|];
    for i := 0 to |counts|
      invariant forall j :: 0 <= j < i ==> share[j] == counts[j].1 as real / n as real
    {
      share[i] := counts[i].1 as real / n as real;
    }
    for i := 0 to share.Length
      invariant forall j :: 0 <= j < i ==> share[j] == counts[j].1 as real / n as real * 100.0
      invariant forall j :: i <= j < share.Length ==> share[j] == counts[j].1 as real / n as real
    {
      share[i] := share[i] * 100.0;
    }
    pct := share[..];
  }

  /**
   * The win-rate table: each team's percentage is its share of the decisive
   * matches; when there is at least one, the percentages total 100.
   */
  method WinRate(filtered: seq<Match>) returns (table: seq<(string, real)>)
    ensures |table| == |WinCounts(filtered)|
    ensures forall i :: 0 <= i < |table| ==>
      table[i].0 == WinCounts(filtered)[i].0 &&
      table[i].1 == WinCounts(filtered)[i].1 as real / |Decisive(filtered)| as real * 100.0
    ensures Decisive(filtered) != [] ==> SumShares(table) == 100.0
  {
    var counts := WinCounts(filtered);
    var n := |Decisive(filtered)|;
    var pct := Percentages(counts, n);
    table := seq(|counts|, i requires 0 <= i < |counts| => (counts[i].0, pct[i]));
    if n > 0 {
      SharesTotal100(counts, table, n);
    }
  }
}
