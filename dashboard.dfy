/**
 * One pass over the page: filter the dataset, stop with a warning when
 * nothing is left, otherwise compute every tab's table from the filtered view.
 */
module Dashboard {
  import opened Wrappers
  import opened Sequences
  import opened Counting
  import opened Matches
  import opened MatchFilter
  import opened WinRateView
  import opened StateView
  import opened StandingsView
  import opened HeadToHeadView
  import opened FormationView
  import opened GoalsView

  /** The team's rows of the view with the added points and running-total columns. */
  datatype Standing = Standing(rows: seq<Match>, points: seq<nat>, cumulative: seq<nat>)

  datatype Page =
    | NoData
    | Views(
        winRate: seq<(string, real)>,
        stateGames: Counts<string>,
        standing: Standing,
        headToHead: Option<Counts<string>>,
        homeFormations: Counts<string>,
        awayFormations: Counts<string>,
        goalsPerRound: seq<(int, real)>)

  /**
   * The sidebar's choices arrive as `c`, the team picked for the standings
   * tab as `team` and the comparison tab's selection as `compared`. An
   * empty filtered view yields the warning page and no table at all;
   * otherwise each tab holds its table for the filtered view.
   */
  method Render(data: seq<Match>, c: Criteria, team: string, compared: seq<string>) returns (page: Page)
    ensures page.NoData? <==> Filtered(data, c) == []
    ensures page.Views? ==>
      var view := Filtered(data, c);
      && |page.winRate| == |WinCounts(view)|
      && (forall i :: 0 <= i < |page.winRate| ==>
            page.winRate[i].0 == WinCounts(view)[i].0 &&
            page.winRate[i].1 == WinCounts(view)[i].1 as real / |Decisive(view)| as real * 100.0)
      && SumShares(page.winRate) == (if Decisive(view) == [] then 0.0 else 100.0)
      && page.stateGames == StateGames(view)
      && page.standing.rows == ByRound(PlayedBy(view, team))
      && |page.standing.points| == |page.standing.rows|
      && (forall i :: 0 <= i < |page.standing.rows| ==>
            page.standing.points[i] == Points(page.standing.rows[i], team))
      && |page.standing.cumulative| == |page.standing.rows|
      && (forall i :: 0 <= i < |page.standing.rows| ==>
            page.standing.cumulative[i] == Sum(page.standing.points[..i + 1]))
      && page.headToHead == HeadToHead(view, compared)
      && page.homeFormations == TopFormations(HomeFormations(view))
      && page.awayFormations == TopFormations(AwayFormations(view))
      && page.goalsPerRound == GoalsPerRound(view)
  {
    var view := ApplyFilter(data, c);
    if view == [] {
      return NoData;
    }
    var winRate := WinRate(view);
    var rows, points, cumulative := Standings(view, team);
    page := Views(
      winRate,
      StateGames(view),
      Standing(rows, points, cumulative),
      HeadToHead(view, compared),
      TopFormations(HomeFormations(view)),
      TopFormations(AwayFormations(view)),
      GoalsPerRound(view));
  }
}
