/**
 * The "Média de Gols" tab: for every round of the filtered view, the mean
 * of home plus away goals over the matches of that round.
 */
module GoalsView {
  import opened Sequences
  import opened Sorting
  import opened Counting
  import opened Matches

  /** The round column. */
  function Rounds(s: seq<Match>): seq<int>
  {
    Map(s, (m: Match) => m.round)
  }

  /** `groupby('rodada').size()` for one round. */
  function MatchesIn(s: seq<Match>, round: int): nat
  {
    Occurrences(Rounds(s), round)
  }

  /** Home plus away goals of the matches of one round. */
  function GoalsIn(s: seq<Match>, round: int): nat
  {
    if s == [] then 0
    else (if s[0].round == round then s[0].homeScore + s[0].awayScore else 0) + GoalsIn(s[1..], round)
  }

  /** One row per group: the round and its goals divided by its number of matches. */
  function Means(sizes: Counts<int>, s: seq<Match>): (r: seq<(int, real)>)
    requires PositiveCounts(sizes)
    ensures |r| == |sizes|
    ensures forall i :: 0 <= i < |r| ==>
      r[i].0 == sizes[i].0 && r[i].1 == GoalsIn(s, sizes[i].0) as real / sizes[i].1 as real
  {
    if sizes == [] then []
    else [(sizes[0].0, GoalsIn(s, sizes[0].0) as real / sizes[0].1 as real)] + Means(sizes[1..], s)
  }

  /**
   * Mean goals per match for each round, rounds in strictly increasing
   * order; every round of the view appears, every listed round has at
   * least one match, and its mean is its goals over its matches.
   */
  function GoalsPerRound(s: seq<Match>): (r: seq<(int, real)>)
    ensures forall i, j :: 0 <= i < j < |r| ==> r[i].0 < r[j].0
    ensures forall i :: 0 <= i < |r| ==>
      MatchesIn(s, r[i].0) >= 1 && r[i].1 == GoalsIn(s, r[i].0) as real / MatchesIn(s, r[i].0) as real
    ensures forall j :: 0 <= j < |s| ==> exists i :: 0 <= i < |r| && r[i].0 == s[j].round
  {
    var sizes := Groups(s);
    GroupsSpec(s);
    GroupsCover(s, sizes);
    Means(sizes, s)
  }

  /** The groups of `groupby('rodada')` with their sizes, keys in ascending order. */
  function Groups(s: seq<Match>): Counts<int>
  {
    SortBy(Tally(Rounds(s)), KeyOf)
  }

  lemma GroupsSpec(s: seq<Match>)
    ensures CountsOf(Groups(s), Rounds(s))
    ensures forall i, j :: 0 <= i < j < |Groups(s)| ==> Groups(s)[i].0 < Groups(s)[j].0
  {
    var tally := Tally(Rounds(s));
    var sizes := Groups(s);
    TallyCountsOf(Rounds(s));
    SortBySorted(tally, KeyOf);
    SortByInjective(tally, KeyOf, KeyOf);
    PermutedCountsOf(tally, sizes, Rounds(s));
    forall i, j | 0 <= i < j < |sizes|
      ensures sizes[i].0 < sizes[j].0
    {
      assert KeyOf(sizes[i]) <= KeyOf(sizes[j]) && KeyOf(sizes[i]) != KeyOf(sizes[j]);
    }
  }

  lemma GroupsCover(s: seq<Match>, sizes: Counts<int>)
    requires CountsOf(sizes, Rounds(s))
    ensures forall j :: 0 <= j < |s| ==> exists i :: 0 <= i < |sizes| && sizes[i].0 == s[j].round
  {
    forall j | 0 <= j < |s|
      ensures exists i :: 0 <= i < |sizes| && sizes[i].0 == s[j].round
    {
      assert Rounds(s)[j] == s[j].round;
      KeysMembers(sizes, s[j].round);
    }
  }
}
