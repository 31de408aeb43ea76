/**
 * A three-match season: A beats B in round 1, A and C draw in round 2,
 * B beats C in round 3.
 */
module Scenarios {
  import opened Wrappers
  import opened Sequences
  import opened Counting
  import opened Matches
  import opened MatchFilter
  import opened WinRateView
  import opened StateView
  import opened StandingsView
  import opened HeadToHeadView

  function Season(): seq<Match>
  {
    [ Match(1, 10, "A", "B", "SP", "RJ", 2, 0, "A", None, None),
      Match(2, 17, "A", "C", "SP", "MG", 1, 1, Draw, None, None),
      Match(3, 24, "B", "C", "RJ", "MG", 3, 1, "B", None, None) ]
  }

  /** Selecting team A keeps the first two matches only. */
  lemma TeamFilterKeepsMatchesOfA()
    ensures Filtered(Season(), Criteria(1, 3, 0, 100, {}, {"A"})) == Season()[..2]
  {
    var s := Season();
    var c := Criteria(1, 3, 0, 100, {}, {"A"});
    assert Keep(s[0], c) && Keep(s[1], c) && !Keep(s[2], c);
    assert s[1..][1..] == [s[2]] && [s[2]][1..] == [];
    assert Filtered([s[2]], c) == [];
    assert Filtered(s[1..], c) == [s[1]];
  }

  /**
   * The draw is left out: A and B have one win each out of two decisive
   * matches (listed in the model's order among equal counts).
   */
  lemma WinCountsOfSeason()
    ensures |Decisive(Season())| == 2
    ensures WinCounts(Season()) == [("B", 1), ("A", 1)]
  {
    DecisiveOfSeason();
    TallyOfTwo("A", "B");
    assert ByCountDesc([("B", 1), ("A", 1)]);
    ValueCountsOfSorted(["A", "B"]);
  }

  /** Each of the two winners holds 50% of the decisive matches. */
  lemma WinRateOfSeason()
    ensures forall i :: 0 <= i < |WinCounts(Season())| ==>
      WinCounts(Season())[i].1 as real / |Decisive(Season())| as real * 100.0 == 50.0
  {
    WinCountsOfSeason();
    var t := WinCounts(Season());
    forall i | 0 <= i < |t|
      ensures t[i].1 as real / 2 as real * 100.0 == 50.0
    {
      assert t[i].1 == 1;
      Half();
    }
  }

  lemma Half()
    ensures 1 as real / 2 as real * 100.0 == 50.0
  {
    assert 1 as real / 2 as real == 0.5;
  }

  lemma DecisiveOfSeason()
    ensures Decisive(Season()) == [Season()[0], Season()[2]]
    ensures Winners(Decisive(Season())) == ["A", "B"]
  {
    var s := Season();
    assert s[1..][1..] == [s[2]] && [s[2]][1..] == [];
    assert Decisive([s[2]]) == [s[2]];
    assert Decisive(s[1..]) == [s[2]];
  }

  /** Two different values, one occurrence each. */
  lemma TallyOfTwo(a: string, b: string)
    requires a != b
    ensures Tally([a, b]) == [(b, 1), (a, 1)]
  {
    assert [a, b][1..] == [b] && [b][1..] == [];
    assert Tally([b]) == [(b, 1)];
    BumpLast([(b, 1)], a);
  }

  /** Every state of the season hosts two games: MG, RJ and SP (in the model's order among equal counts). */
  lemma StateGamesOfSeason()
    ensures StateGames(Season()) == [("MG", 2), ("RJ", 2), ("SP", 2)]
  {
    var xs := StatesOfSeason();
    TallyOfStates(xs);
    assert ByCountDesc([("MG", 2), ("RJ", 2), ("SP", 2)]);
    ValueCountsOfSorted(xs);
  }

  lemma StatesOfSeason() returns (xs: seq<string>)
    ensures xs == States(Season()) == ["SP", "SP", "RJ", "RJ", "MG", "MG"]
  {
    var s := Season();
    assert s[1..][1..] == [s[2]] && [s[2]][1..] == [];
    assert HomeStates(s) == ["SP", "SP", "RJ"];
    assert AwayStates(s) == ["RJ", "MG", "MG"];
    xs := States(s);
  }

  lemma TallyOfStates(xs: seq<string>)
    requires xs == ["SP", "SP", "RJ", "RJ", "MG", "MG"]
    ensures Tally(xs) == [("MG", 2), ("RJ", 2), ("SP", 2)]
  {
    assert xs[5..] == ["MG"] && xs[5..][1..] == [];
    assert Tally(xs[5..]) == [("MG", 1)];
    assert xs[4..][1..] == xs[5..];
    assert Tally(xs[4..]) == [("MG", 2)];
    assert xs[3..][1..] == xs[4..];
    BumpLast([("MG", 2)], "RJ");
    assert Tally(xs[3..]) == [("MG", 2), ("RJ", 1)];
    assert xs[2..][1..] == xs[3..];
    assert [("MG", 2), ("RJ", 1)][1..] == [("RJ", 1)];
    assert Tally(xs[2..]) == [("MG", 2), ("RJ", 2)];
    assert xs[1..][1..] == xs[2..];
    BumpLast([("MG", 2), ("RJ", 2)], "SP");
    assert Tally(xs[1..]) == [("MG", 2), ("RJ", 2), ("SP", 1)];
    var t := [("MG", 2), ("RJ", 2), ("SP", 1)];
    assert t[1..] == [("RJ", 2), ("SP", 1)] && t[1..][1..] == [("SP", 1)];
    assert Bump(t[1..], "SP") == [("RJ", 2)] + Bump(t[1..][1..], "SP");
  }

  /** A value without an entry is appended with a count of one. */
  lemma {:induction false} BumpLast(t: Counts<string>, k: string)
    requires forall i :: 0 <= i < |t| ==> t[i].0 != k
    ensures Bump(t, k) == t + [(k, 1)]
  {
    if t != [] {
      BumpLast(t[1..], k);
      assert [t[0]] + (t[1..] + [(k, 1)]) == t + [(k, 1)];
    }
  }

  /** Team A's rows are rounds 1 and 2, worth 3 and 1 points, for running totals of 3 and 4. */
  lemma StandingsOfA()
    ensures ByRound(PlayedBy(Season(), "A")) == Season()[..2]
    ensures Map(ByRound(PlayedBy(Season(), "A")), PointsFor("A")) == [3, 1]
    ensures Sum(Map(ByRound(PlayedBy(Season(), "A")), PointsFor("A"))[..1]) == 3
    ensures Sum(Map(ByRound(PlayedBy(Season(), "A")), PointsFor("A"))[..2]) == 4
  {
    var s := Season();
    assert s[1..][1..] == [s[2]] && [s[2]][1..] == [];
    assert PlayedBy([s[2]], "A") == [];
    assert PlayedBy(s[1..], "A") == [s[1]];
    assert PlayedBy(s, "A") == [s[0], s[1]];
    assert [s[0], s[1]][1..] == [s[1]];
    var rows := ByRound(PlayedBy(s, "A"));
    assert rows[1..] == [s[1]] && [s[1]][1..] == [];
    assert [3, 1][..1] == [3] && [3, 1][..2] == [3, 1];
    assert [3][1..] == [] && [3, 1][1..] == [1] && [1][1..] == [];
  }

  /**
   * Comparing A and B involves all three matches; A and B win one each and
   * the draw is dropped (listed in the model's order among equal counts).
   */
  lemma HeadToHeadOfAAndB()
    ensures Involving(Season(), ["A", "B"]) == Season()
    ensures HeadToHead(Season(), ["A", "B"]) == Some([("B", 1), ("A", 1)])
  {
    var w := WinnersOfSeason();
    var counts := [("B", 1), (Draw, 1), ("A", 1)];
    TallyOfThree("A", Draw, "B");
    assert ByCountDesc(counts);
    ValueCountsOfSorted(w);
    OnlyChosenOfSeason(counts);
  }

  lemma WinnersOfSeason() returns (w: seq<string>)
    ensures Involving(Season(), ["A", "B"]) == Season()
    ensures w == Winners(Involving(Season(), ["A", "B"])) == ["A", Draw, "B"]
  {
    var s := Season();
    assert s[1..][1..] == [s[2]] && [s[2]][1..] == [];
    assert Involving([s[2]], ["A", "B"]) == [s[2]];
    assert Involving(s[1..], ["A", "B"]) == s[1..];
    w := Winners(s);
    assert w[1..] == Winners(s[1..]);
  }

  /** Three different values, one occurrence each. */
  lemma TallyOfThree(a: string, b: string, c: string)
    requires a != b && b != c && a != c
    ensures Tally([a, b, c]) == [(c, 1), (b, 1), (a, 1)]
  {
    assert [a, b, c][1..] == [b, c];
    TallyOfTwo(b, c);
    BumpLast([(c, 1), (b, 1)], a);
  }

  lemma OnlyChosenOfSeason(t: Counts<string>)
    requires t == [("B", 1), (Draw, 1), ("A", 1)]
    ensures OnlyChosen(t, ["A", "B"]) == [("B", 1), ("A", 1)]
  {
    var p := IsChosen(["A", "B"]);
    assert t[1..] == [(Draw, 1), ("A", 1)] && t[1..][1..] == [("A", 1)] && t[1..][1..][1..] == [];
    assert p(("A", 1)) && !p((Draw, 1)) && p(("B", 1));
    assert Filter(t[1..][1..], p) == [("A", 1)];
    assert Filter(t[1..], p) == [("A", 1)];
  }
}
