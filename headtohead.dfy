/**
 * The "Comparativo" tab: with exactly two teams chosen, the win counts of
 * those teams among the filtered matches that involve either of them.
 */
module HeadToHeadView {
  import opened Wrappers
  import opened Sequences
  import opened Counting
  import opened Matches

  /** The matches where the home or the away team is one of `chosen`. */
  function Involving(s: seq<Match>, chosen: seq<string>): seq<Match>
  {
    Filter(s, InvolvesAny(chosen))
  }

  function InvolvesAny(chosen: seq<string>): Match -> bool
  {
    (m: Match) => m.homeTeam in chosen || m.awayTeam in chosen
  }

  /** The rows of a table whose value is one of `chosen`. */
  function OnlyChosen(t: Counts<string>, chosen: seq<string>): Counts<string>
  {
    Filter(t, IsChosen(chosen))
  }

  function IsChosen(chosen: seq<string>): ((string, nat)) -> bool
  {
    (e: (string, nat)) => e.0 in chosen
  }

  /**
   * No result unless exactly two teams are chosen. Otherwise one entry per
   * chosen team that won at least once among the matches involving either
   * team, holding that number of wins; a team without a win has no entry.
   */
  function HeadToHead(filtered: seq<Match>, chosen: seq<string>): (r: Option<Counts<string>>)
    ensures r.Some? <==> |chosen| == 2
    ensures r.Some? ==> DistinctKeys(r.value) && ByCountDesc(r.value)
    ensures r.Some? ==> forall i :: 0 <= i < |r.value| ==>
      && r.value[i].0 in chosen
      && r.value[i].1 == Occurrences(Winners(Involving(filtered, chosen)), r.value[i].0)
      && r.value[i].1 > 0
    ensures r.Some? ==> forall team ::
      team in chosen && Occurrences(Winners(Involving(filtered, chosen)), team) > 0 ==> team in Keys(r.value)
  {
    if |chosen| != 2 then None
    else
      var wins := Winners(Involving(filtered, chosen));
      var counts := ValueCounts(wins);
      var r := OnlyChosen(counts, chosen);
      FilterTable(counts, IsChosen(chosen));
      FilterMembers(counts, IsChosen(chosen));
      CoversChosen(wins, counts, chosen);
      Some(r)
  }

  lemma CoversChosen(wins: seq<string>, counts: Counts<string>, chosen: seq<string>)
    requires CountsOf(counts, wins)
    ensures forall team ::
      team in chosen && Occurrences(wins, team) > 0 ==> team in Keys(OnlyChosen(counts, chosen))
  {
    forall team | team in chosen && Occurrences(wins, team) > 0
      ensures team in Keys(OnlyChosen(counts, chosen))
    {
      OccurrencesPositive(wins, team);
      var j :| 0 <= j < |wins| && wins[j] == team;
      KeysMembers(counts, team);
      var i :| 0 <= i < |counts| && counts[i].0 == team;
      var r := OnlyChosen(counts, chosen);
      FilterMembers(counts, IsChosen(chosen));
      assert counts[i] in r;
      var k :| 0 <= k < |r| && r[k] == counts[i];
      KeysMembers(r, team);
    }
  }

  /**
   * When every match names one of its own teams or the draw marker as its
   * winner, a chosen team's count among the matches involving the two
   * teams is its number of wins in the whole filtered view.
   */
  lemma {:induction false} WinsAmongInvolving(filtered: seq<Match>, chosen: seq<string>, team: string)
    requires team in chosen && team != Draw
    requires forall i :: 0 <= i < |filtered| ==> WellFormed(filtered[i])
    ensures Occurrences(Winners(Involving(filtered, chosen)), team) == Occurrences(Winners(filtered), team)
  {
    if filtered != [] {
      WinsAmongInvolving(filtered[1..], chosen, team);
      var m := filtered[0];
      assert Winners(filtered) == [m.winner] + Winners(filtered[1..]);
      if m.homeTeam in chosen || m.awayTeam in chosen {
        assert Involving(filtered, chosen) == [m] + Involving(filtered[1..], chosen);
        assert Winners(Involving(filtered, chosen)) == [m.winner] + Winners(Involving(filtered[1..], chosen));
      } else {
        assert Involving(filtered, chosen) == Involving(filtered[1..], chosen);
        assert WellFormed(filtered[0]);
      }
    }
  }
}
