/**
 * The "Desempenho por Time" tab: one team's matches in round order, scored
 * 3 for a win, 1 for a draw and 0 otherwise, with the running total.
 */
module StandingsView {
  import opened Sequences
  import opened Sorting
  import opened Counting
  import opened Matches

  /** The matches the team played, at home or away, in dataset order. */
  function PlayedBy(s: seq<Match>, team: string): seq<Match>
  {
    Filter(s, InvolvesTeam(team))
  }

  function InvolvesTeam(team: string): Match -> bool
  {
    (m: Match) => Involves(m, team)
  }

  /** `sort_values("rodada")`. */
  function ByRound(s: seq<Match>): seq<Match>
  {
    SortBy(s, (m: Match) => m.round)
  }

  /** The points column: 3 if the team won, 1 on a draw, 0 otherwise. */
  function Points(m: Match, team: string): nat
  {
    if m.winner == team then 3 else if m.winner == Draw then 1 else 0
  }

  function PointsFor(team: string): Match -> nat
  {
    (m: Match) => Points(m, team)
  }

  /** Over any matches of a team, the points add up to three per win plus one per draw. */
  lemma {:induction false} PointsTotal(s: seq<Match>, team: string)
    requires team != Draw
    ensures SumOf(s, PointsFor(team)) == 3 * Occurrences(Winners(s), team) + Occurrences(Winners(s), Draw)
  {
    if s != [] {
      PointsTotal(s[1..], team);
      assert Winners(s) == [s[0].winner] + Winners(s[1..]);
    }
  }

  /** The sorted rows are the team's matches of the view, by non-decreasing round. */
  lemma ByRoundPlayedBy(filtered: seq<Match>, team: string)
    ensures forall i :: 0 <= i < |ByRound(PlayedBy(filtered, team))| ==>
      ByRound(PlayedBy(filtered, team))[i] in filtered && Involves(ByRound(PlayedBy(filtered, team))[i], team)
    ensures forall i, j :: 0 <= i < j < |ByRound(PlayedBy(filtered, team))| ==>
      ByRound(PlayedBy(filtered, team))[i].round <= ByRound(PlayedBy(filtered, team))[j].round
  {
    var played := PlayedBy(filtered, team);
    var rows := ByRound(played);
    FilterMembers(filtered, InvolvesTeam(team));
    SortBySorted(played, (m: Match) => m.round);
    forall i | 0 <= i < |rows|
      ensures rows[i] in filtered && Involves(rows[i], team)
    {
      assert rows[i] in multiset(played);
    }
  }

  /** The last running total over the sorted rows equals three per win plus one per draw. */
  lemma FinalStanding(filtered: seq<Match>, team: string)
    requires team != Draw
    ensures Sum(Map(ByRound(PlayedBy(filtered, team)), PointsFor(team))) ==
      3 * Occurrences(Winners(PlayedBy(filtered, team)), team) + Occurrences(Winners(PlayedBy(filtered, team)), Draw)
  {
    var played := PlayedBy(filtered, team);
    SumOfMap(ByRound(played), PointsFor(team));
    SortBySumOf(played, (m: Match) => m.round, PointsFor(team));
    PointsTotal(played, team);
  }

  /** The `apply` that adds the points column, row by row. */
  method PointsColumn(rows: seq<Match>, team: string) returns (points: seq<nat>)
    ensures |points| == |rows|
    ensures forall i :: 0 <= i < |rows| ==> points[i] == Points(rows[i], team)
  {
    var pontos := new nat[|rows|];
    for i := 0 to |rows|
      invariant forall j :: 0 <= j < i ==> pontos[j] == Points(rows[j], team)
    {
      pontos[i] := Points(rows[i], team);
    }
    points := pontos[..];
  }

  /** `cumsum`: entry `i` is the sum of the first `i + 1` points. */
  method CumSum(points: seq<nat>) returns (cumulative: seq<nat>)
    ensures |cumulative| == |points|
    ensures forall i :: 0 <= i < |points| ==> cumulative[i] == Sum(points[..i + 1])
    ensures |points| > 0 ==> cumulative[0] == points[0]
    ensures forall i :: 0 < i < |points| ==> cumulative[i] == cumulative[i - 1] + points[i]
    ensures forall i, j :: 0 <= i <= j < |points| ==> cumulative[i] <= cumulative[j]
  {
    var n := |points|;
    var acumulado := new nat[n];
    var running: nat := 0;
    for i := 0 to n
      invariant running == Sum(points[..i])
      invariant forall j :: 0 <= j < i ==> acumulado[j] == Sum(points[..j + 1])
    {
      SumOfPrefix(points, i, Id);
      running := running + points[i];
      acumulado[i] := running;
    }
    cumulative := acumulado[..];
    forall i | 0 <= i < n
      ensures cumulative[i] == (if i == 0 then 0 else cumulative[i - 1]) + points[i]
    {
      SumOfPrefix(points, i, Id);
      assert points[..0] == [];
    }
    if n > 0 {
      assert cumulative[0] == Sum(points[..1]);
      SumOfPrefix(points, 0, Id);
      assert Sum(points[..1]) == Sum(points[..0]) + Id(points[0]);
      assert Sum(points[..0]) == 0;
      assert cumulative[0] == points[0];
    }

    forall i, j | 0 <= i <= j < n
      ensures cumulative[i] <= cumulative[j]
    {
      assert points[..j + 1] == points[..i + 1] + points[i + 1..j + 1];
      SumOfConcat(points[..i + 1], points[i + 1..j + 1], Id);
    }
  }

  /**
   * Builds the team's rows of the view sorted by round, then the points
   * column (`apply`) and its running total (`cumsum`).
   */
  method Standings(filtered: seq<Match>, team: string) returns (rows: seq<Match>, points: seq<nat>, cumulative: seq<nat>)
    ensures rows == ByRound(PlayedBy(filtered, team))
    ensures multiset(rows) == multiset(PlayedBy(filtered, team))
    ensures forall i :: 0 <= i < |rows| ==> rows[i] in filtered && Involves(rows[i], team)
    ensures forall i, j :: 0 <= i < j < |rows| ==> rows[i].round <= rows[j].round
    ensures |points| == |rows| && forall i :: 0 <= i < |rows| ==> points[i] == Points(rows[i], team)
    ensures forall i :: 0 <= i < |rows| ==> points[i] in {0, 1, 3}
    ensures |cumulative| == |rows|
    ensures forall i :: 0 <= i < |rows| ==> cumulative[i] == Sum(points[..i + 1])
    ensures |rows| > 0 ==> cumulative[0] == points[0]
    ensures forall i :: 0 < i < |rows| ==> cumulative[i] == cumulative[i - 1] + points[i]
    ensures forall i, j :: 0 <= i <= j < |rows| ==> cumulative[i] <= cumulative[j]
    ensures team != Draw && |rows| > 0 ==>
      cumulative[|rows| - 1] == 3 * Occurrences(Winners(PlayedBy(filtered, team)), team)
                                + Occurrences(Winners(PlayedBy(filtered, team)), Draw)
  {
    rows := ByRound(PlayedBy(filtered, team));
    ByRoundPlayedBy(filtered, team);
    var n := |rows|;
    points := PointsColumn(rows, team);
    cumulative := CumSum(points);
    if n > 0 && team != Draw {
      assert points == Map(rows, PointsFor(team));
      assert points[..n] == points;
      FinalStanding(filtered, team);
    }
  }
}
