# Brasileirão dashboard: filter-and-aggregate engine

A Dafny model of the data logic of the Streamlit dashboard `G2/main.py`.
The dashboard loads a table of football matches of the Brazilian championship.
It narrows the table with sidebar filters: round range, date range, states and teams.
It then derives the tables behind six tabs:

- share of wins per team;
- games per state;
- one team's cumulative points;
- a two-team win comparison;
- the ten most common formations for each side;
- mean goals per match for each round.

In the model, the dataset is a `seq<Match>` and dates are ordinal day numbers.
The sidebar's choices are a `Criteria` value.
Every table is a Dafny value derived from the filtered sequence.

Layout:

- `sequences.dfy`: column projection (`Map`), mask selection (`Filter`), column sums, and the order-preserving selection lemma.
- `sorting.dfy`: insertion sort by an integer key, standing for `sort_values` and the count sort inside `value_counts`.
- `counting.dfy`: `value_counts()` as a frequency table `seq<(K, nat)>` ordered by non-increasing count.
- `matches.dfy`: the match record and the draw marker `"-"`.
- `filter.dfy`: the filter mask, built step by step as the dashboard builds it.
- `winrate.dfy`, `states.dfy`, `standings.dfy`, `headtohead.dfy`, `formations.dfy`, `goals.dfy`: one module per tab.
- `dashboard.dfy`: one page render, including the empty-result stop.
- `scenarios.dfy`: a three-match season as worked examples.

The code is the reference for every decision.
Two places where the code's behaviour differs from what one might expect:

- Head-to-head has no entry for a chosen team with zero wins, because `value_counts` omits zero counts. It is not always a two-entry result.
- Standings have one row per match the team played, not one per round.

## Model

| member | source | states |
|---|---|---|
| MatchFilter.ApplyFilter | G2/main.py:22-28 | The mask, built from the two inclusive range tests and narrowed by `&=` only for a non-empty state or team selection, selects exactly the matches satisfying every active predicate, in dataset order |
| MatchFilter.SelectByKeep | G2/main.py:28 | Selecting rows with a mask that agrees with the filter predicate row by row yields the filtered view |
| MatchFilter.FilteredIsSelection | G2/main.py:22-28 | The filtered view is the dataset at an increasing list of positions, and a position is listed exactly when its match passes the filter (subsequence, soundness and completeness) |
| MatchFilter.FilteredSound | G2/main.py:22-26 | Every kept match is in the dataset, has round and date within the inclusive bounds, and has its home or away state (team) in the selection whenever that selection is non-empty |
| MatchFilter.FilteredComplete | G2/main.py:22-26 | Every dataset match that satisfies all active predicates is kept |
| Dashboard.Render | G2/main.py:22-140 | The page is the no-data warning exactly when the filtered view is empty, and then no table is computed; otherwise each tab holds its table for the filtered view: each team's win percentage is its win count over the number of decisive matches times 100 (totalling 100 when some match was decisive), the standings rows are the team's matches by round with 3/1/0 points per row and each running total the sum of the points so far, and the state, head-to-head, formation and goals tables are those functions of the view |
| WinRateView.WinCounts | G2/main.py:48-49 | Draws are excluded: one entry per winning team with its number of decisive wins, distinct teams, non-increasing counts summing to the number of decisive matches, never the draw marker, and empty exactly when no match was decisive |
| WinRateView.WinRate | G2/main.py:48-51 | Each team's percentage is its win count divided by the number of decisive matches, times 100; the percentages total 100 when at least one match was decisive |
| WinRateView.Percentages | G2/main.py:49-51 | Each entry is its count divided by the number of decisive matches (`normalize=True`), then multiplied by 100 in place |
| WinRateView.SharesAddUp | G2/main.py:49-51 | Shares of a count column over n add up to the column total over n, times 100 |
| WinRateView.SharesTotal100 | G2/main.py:49-51 | Shares over the column's own total add up to exactly 100 |
| StateView.StateGames | G2/main.py:68-69 | One entry per state that occurs, whose count is the per-match sum of its home and away appearances; every match's two states have entries, and the counts total twice the number of matches |
| StateView.StatesOccurrences | G2/main.py:68-69 | Occurrences of a state in the concatenated home and away columns equal the match-by-match reference count |
| StateView.GamesInAppend | G2/main.py:68-69 | One more match adds one to its home state and one to its away state, so two to a single state for a derby |
| StandingsView.Standings | G2/main.py:81-85 | The rows are exactly the team's matches, a permutation of them sorted by non-decreasing round; points are 3, 1 or 0 as the team won, drew or lost; the running total starts at the first points, grows by each row's points, never decreases, and ends at 3 times wins plus draws |
| StandingsView.PointsColumn | G2/main.py:83-84 | One points value per row: 3 when the team is the winner, 1 for a draw, 0 otherwise |
| StandingsView.CumSum | G2/main.py:85 | Entry i is the sum of the first i+1 points; each entry is the previous one plus that row's points, and the column never decreases |
| StandingsView.ByRoundPlayedBy | G2/main.py:81-82 | The sorted rows are matches of the view that the team played, ordered by non-decreasing round |
| StandingsView.PointsTotal | G2/main.py:83-84 | Over any matches, for a team other than the draw marker, the points add up to 3 per win plus 1 per draw |
| StandingsView.FinalStanding | G2/main.py:82-85 | Sorting by round does not change the points total, which is 3 times the team's wins plus its draws |
| HeadToHeadView.HeadToHead | G2/main.py:96-103 | A result exists exactly when two teams are chosen; its entries are distinct chosen teams, each with its wins among filtered matches involving either team, all positive and non-increasing; a chosen team has an entry exactly when it won at least once |
| HeadToHeadView.CoversChosen | G2/main.py:101-103 | Every chosen team with at least one win keeps its entry after restricting the table to the chosen teams |
| HeadToHeadView.WinsAmongInvolving | G2/main.py:98-101 | When each winner is a side of its match or the draw marker, a chosen team's count among matches involving either team equals its wins in the whole filtered view |
| FormationView.TopFormations | G2/main.py:113-114 | At most ten distinct labels, with non-increasing counts; each count is the number of rows with that label on that side; a label left out occurs no more often than any kept one, and is left out only when ten are kept |
| FormationView.DroppedKey | G2/main.py:114 | A label missing from the first rows of a count-sorted table comes later, with a count no larger than any of those rows |
| FormationView.PresentOccurrences | G2/main.py:113-114 | Dropping missing labels keeps every label's number of occurrences |
| FormationView.CutOff | G2/main.py:113-114 | A label that occurs but is missing from the kept prefix comes after all ten kept rows |
| GoalsView.GoalsPerRound | G2/main.py:137-140 | Rounds in strictly increasing order; every round of the view appears; each listed round has at least one match, and its mean is its home plus away goals divided by its number of matches |
| GoalsView.GroupsSpec | G2/main.py:137 | The round groups are a frequency table of the round column with keys in strictly increasing order |
| GoalsView.Means | G2/main.py:138-140 | Each group's mean is its goals divided by its positive size, row by row |
| Counting.ValueCounts | G2/main.py:69 | A frequency table of the input: distinct values, each with its number of occurrences, every element present, counts non-increasing and summing to the input's length |
| Counting.ValueCountsOfSorted | G2/main.py:69 | When the tally is already in non-increasing count order, `value_counts` returns it as it stands |
| Counting.TallySpec | G2/main.py:69 | The unsorted tally has distinct values and positive counts; each value's recorded count is its number of occurrences; its counts total the input's length |
| Counting.BumpSpec | G2/main.py:69 | Recording one occurrence adds one to that value's count only and keeps values distinct |
| Counting.PermutedCountsOf | G2/main.py:69 | A reordering of a frequency table with distinct values is still a frequency table of the same input |
| Counting.FilterTable | G2/main.py:103 | Keeping some rows of a table keeps values distinct and counts non-increasing |
| Counting.OccurrencesConcat | G2/main.py:68 | Occurrences in a concatenation are the sum of occurrences in its parts |
| Sorting.SortBySorted | G2/main.py:82 | The sorted sequence is ordered by non-decreasing key |
| Sorting.SortBySortedUnchanged | G2/main.py:69 | A sequence already ordered by the key comes back unchanged, so equal keys keep their order |
| Sorting.SortBySumOf | G2/main.py:82-85 | Sorting does not change the sum of a column |
| Sorting.SortByInjective | G2/main.py:69 | Sorting keeps a sequence free of duplicate keys |
| Sequences.FilterIsSelection | G2/main.py:28 | Boolean selection keeps exactly the positions where the predicate holds, in increasing order |
| Sequences.FilterMembers | G2/main.py:28 | Boolean selection keeps exactly the elements of the input that satisfy the predicate |
| Sequences.FilterPairwise | G2/main.py:103 | Boolean selection preserves every relation that held between earlier and later elements |
| Scenarios.TeamFilterKeepsMatchesOfA | G2/main.py:25-28 | In the three-match season, selecting team A keeps the first two matches only |
| Scenarios.WinCountsOfSeason | G2/main.py:48-49 | In the three-match season, the draw is dropped, leaving two decisive matches and the table B 1, A 1 |
| Scenarios.WinRateOfSeason | G2/main.py:49-51 | In the three-match season, each winner's percentage is 50 |
| Scenarios.StateGamesOfSeason | G2/main.py:68-69 | In the three-match season, the state table is MG 2, RJ 2, SP 2 |
| Scenarios.StandingsOfA | G2/main.py:81-85 | In the three-match season, team A's rows are rounds 1 and 2, worth 3 and then 1 point, with running totals 3 and 4 |
| Scenarios.HeadToHeadOfAAndB | G2/main.py:96-103 | In the three-match season, comparing A and B involves all three matches, and the result is B 1, A 1 with the draw dropped |

## Left out

- Streamlit widgets, page layout, tabs, the radio and the select boxes. Their outputs are the parameters of `Render`: `Criteria`, the standings team, and the comparison selection. The same goes for the warning text and `st.stop()`, which become the `NoData` page.
- The comparison widget limits users to two teams (`max_selections=2`). That is a user-interface limit: `HeadToHead` takes any list and answers only when it has exactly two entries.
- Plotly and Streamlit chart construction, the `%.2f` label format, and the second states tab's ascending re-sort for a horizontal bar chart. These only render; that tab's counts are `StateGames`.
- CSV loading and day-first date parsing. Dates are integers, and every record is assumed already parsed.
- A date picker that returns one date instead of a pair. The dashboard's own indexing would fail there; that is user-interface input, not modelled.
- Floating-point arithmetic. Percentages and means are Dafny `real` values, so there is no rounding.
- The order among equal counts in `value_counts` and among equal rounds in `sort_values`. pandas does not fix it, while the model fixes one admissible order: its insertion sort is stable. The sortedness, permutation, frequency, total and final-standing properties hold for any order. `Standings` and `Render` tie the rows to that one order, so with several matches in one round the intermediate running totals are those of the model's order. The worked examples list their tables in that order too.
- pandas NaN semantics. A missing formation is `None`, and it is dropped before counting, as `value_counts` drops NaN.
- StandingsView.Standings: the final total equals 3·wins + draws only when the selected team is not named `"-"`. If the team were named like the draw marker, every draw would score 3, and the model states nothing about that case.
- HeadToHeadView.WinsAmongInvolving: assumes each winner is one of the two sides or `"-"`. The dataset is expected to satisfy this, but the dashboard never checks it.
