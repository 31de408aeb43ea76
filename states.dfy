/**
 * The "Jogos por Estado" tabs: games per state over the home-state column
 * followed by the away-state column, so every match counts once for each side.
 */
module StateView {
  import opened Sequences
  import opened Counting
  import opened Matches

  function HomeStates(s: seq<Match>): seq<string>
  {
    Map(s, (m: Match) => m.homeState)
  }

  function AwayStates(s: seq<Match>): seq<string>
  {
    Map(s, (m: Match) => m.awayState)
  }

  /** `pd.concat` of the two state columns. */
  function States(s: seq<Match>): seq<string>
  {
    HomeStates(s) + AwayStates(s)
  }

  /** What one match adds to the count of state `k`: one for each side played there. */
  function Increments(m: Match, k: string): nat
  {
    (if m.homeState == k then 1 else 0) + (if m.awayState == k then 1 else 0)
  }

  /** Reference definition: the games of state `k`, match by match. */
  function GamesIn(s: seq<Match>, k: string): nat
  {
    if s == [] then 0 else Increments(s[0], k) + GamesIn(s[1..], k)
  }

  lemma {:induction false} StatesOccurrences(s: seq<Match>, k: string)
    ensures Occurrences(States(s), k) == GamesIn(s, k)
  {
    OccurrencesConcat(HomeStates(s), AwayStates(s), k);
    if s != [] {
      StatesOccurrences(s[1..], k);
      OccurrencesConcat(HomeStates(s[1..]), AwayStates(s[1..]), k);
      assert HomeStates(s) == [s[0].homeState] + HomeStates(s[1..]);
      assert AwayStates(s) == [s[0].awayState] + AwayStates(s[1..]);
    }
  }

  /**
   * Games per state: one entry per state that occurs, counting each match
   * once for its home state and once for its away state (twice for a derby
   * inside one state); the counts add up to twice the number of matches.
   */
  function StateGames(s: seq<Match>): (r: Counts<string>)
    ensures DistinctKeys(r) && ByCountDesc(r)
    ensures forall i :: 0 <= i < |r| ==> r[i].1 == GamesIn(s, r[i].0) && r[i].1 > 0
    ensures forall i :: 0 <= i < |s| ==> s[i].homeState in Keys(r) && s[i].awayState in Keys(r)
    ensures Total(r) == 2 * |s|
  {
    var r := ValueCounts(States(s));
    assert forall i :: 0 <= i < |r| ==> r[i].1 == GamesIn(s, r[i].0) by {
      forall i | 0 <= i < |r| ensures r[i].1 == GamesIn(s, r[i].0) {
        StatesOccurrences(s, r[i].0);
      }
    }
    forall i | 0 <= i < |s|
      ensures s[i].homeState in Keys(r) && s[i].awayState in Keys(r)
    {
      assert States(s)[i] == s[i].homeState && States(s)[|s| + i] == s[i].awayState;
    }
    r
  }

  /** A match appended to the view adds one to its home state and one to its away state. */
  lemma {:induction false} GamesInAppend(s: seq<Match>, m: Match, k: string)
    ensures GamesIn(s + [m], k) == GamesIn(s, k) + Increments(m, k)
  {
    if s == [] {
      assert [m][1..] == [];
    } else {
      assert (s + [m])[1..] == s[1..] + [m];
      GamesInAppend(s[1..], m, k);
    }
  }
}
