/** One row of the match dataset, with dates as ordinal day numbers. */
module Matches {
  import opened Wrappers
  import opened Sequences

  /** The value of the winner column when a match ended level. */
  const Draw: string := "-"

  datatype Match = Match(
    round: int,
    date: int,
    homeTeam: string,
    awayTeam: string,
    homeState: string,
    awayState: string,
    homeScore: nat,
    awayScore: nat,
    winner: string,
    homeFormation: Option<string>,
    awayFormation: Option<string>)

  /** The dataset's own invariant: the winner is one of the two sides, or the draw marker. */
  ghost predicate WellFormed(m: Match)
  {
    m.winner == m.homeTeam || m.winner == m.awayTeam || m.winner == Draw
  }

  /** The team played this match, at home or away. */
  predicate Involves(m: Match, team: string)
  {
    m.homeTeam == team || m.awayTeam == team
  }

  /** The winner column. */
  function Winners(s: seq<Match>): seq<string>
  {
    Map(s, (m: Match) => m.winner)
  }
}
