/**
 * The sidebar filter: a conjunction of a round range, a date range and,
 * when the user selected any, a set of states and a set of teams.
 */
module MatchFilter {
  import opened Sequences
  import opened Matches

  /**
   * What the sidebar widgets produce. Both ranges are inclusive; an empty
   * set of states or teams means that selection imposes no constraint.
   */
  datatype Criteria = Criteria(
    roundMin: int, roundMax: int,
    dateStart: int, dateEnd: int,
    states: set<string>,
    teams: set<string>)

  /** The dataframe's `between`: both ends inclusive. */
  predicate Between(x: int, lo: int, hi: int)
  {
    lo <= x <= hi
  }

  /** A match passes the filter when every active predicate holds. */
  predicate Keep(m: Match, c: Criteria)
  {
    && Between(m.round, c.roundMin, c.roundMax)
    && Between(m.date, c.dateStart, c.dateEnd)
    && (c.states == {} || m.homeState in c.states || m.awayState in c.states)
    && (c.teams == {} || m.homeTeam in c.teams || m.awayTeam in c.teams)
  }

  /** `Keep` for fixed criteria, as a predicate on matches. */
  function Passes(c: Criteria): Match -> bool
  {
    (m: Match) => Keep(m, c)
  }

  /** The filtered view: the matches that pass, in dataset order. */
  function Filtered(data: seq<Match>, c: Criteria): seq<Match>
  {
    Filter(data, Passes(c))
  }

  /** A boolean column over the dataset's rows. */
  type Mask = seq<bool>

  function RoundMask(data: seq<Match>, c: Criteria): (mask: Mask)
  {
    seq(|data|, i requires 0 <= i < |data| => Between(data[i].round, c.roundMin, c.roundMax))
  }

  function DateMask(data: seq<Match>, c: Criteria): (mask: Mask)
  {
    seq(|data|, i requires 0 <= i < |data| => Between(data[i].date, c.dateStart, c.dateEnd))
  }

  /** `isin` on the home column or on the away column. */
  function EitherSideIn(data: seq<Match>, home: Match -> string, away: Match -> string, chosen: set<string>): (mask: Mask)
  {
    seq(|data|, i requires 0 <= i < |data| => home(data[i]) in chosen || away(data[i]) in chosen)
  }

  /** Element-wise `&`. */
  function And(a: Mask, b: Mask): (mask: Mask)
    requires |a| == |b|
  {
    seq(|a|, i requires 0 <= i < |a| => a[i] && b[i])
  }

  /** `df[mask]`: the rows whose mask entry is true, in order. */
  function Select(data: seq<Match>, mask: Mask): seq<Match>
    requires |mask| == |data|
  {
    if data == [] then [] else (if mask[0] then [data[0]] else []) + Select(data[1..], mask[1..])
  }

  /** Selecting by a mask that agrees with `Keep` row by row gives the filtered view. */
  lemma {:induction false} SelectByKeep(data: seq<Match>, mask: Mask, c: Criteria)
    requires |mask| == |data|
    requires forall i :: 0 <= i < |data| ==> mask[i] == Keep(data[i], c)
    ensures Select(data, mask) == Filtered(data, c)
  {
    if data != [] {
      SelectByKeep(data[1..], mask[1..], c);
    }
  }

  /**
   * Builds the mask the way the dashboard does, starting from the two range
   * tests and narrowing it with `&=` for each non-empty selection, then
   * applies it.
   */
  method ApplyFilter(data: seq<Match>, c: Criteria) returns (filtered: seq<Match>)
    ensures filtered == Filtered(data, c)
  {
    var mask := And(RoundMask(data, c), DateMask(data, c));
    if c.states != {} {
      mask := And(mask, EitherSideIn(data, (m: Match) => m.homeState, (m: Match) => m.awayState, c.states));
    }
    if c.teams != {} {
      mask := And(mask, EitherSideIn(data, (m: Match) => m.homeTeam, (m: Match) => m.awayTeam, c.teams));
    }
    assert forall i :: 0 <= i < |data| ==> mask[i] == Keep(data[i], c);
    SelectByKeep(data, mask, c);
    filtered := Select(data, mask);
  }

  /**
   * Soundness and completeness: the filtered view is the dataset restricted
   * to exactly the positions whose match passes, in increasing order.
   */
  lemma FilteredIsSelection(data: seq<Match>, c: Criteria)
    ensures exists idx :: SelectionBy(Filtered(data, c), data, Passes(c), idx)
  {
    FilterIsSelection(data, Passes(c));
    var idx :| SelectionBy(Filter(data, Passes(c)), data, Passes(c), idx);
    assert SelectionBy(Filtered(data, c), data, Passes(c), idx);
  }

  /** Every match in the view satisfies both inclusive ranges and the active selections. */
  lemma FilteredSound(data: seq<Match>, c: Criteria, m: Match)
    requires m in Filtered(data, c)
    ensures m in data
    ensures c.roundMin <= m.round <= c.roundMax && c.dateStart <= m.date <= c.dateEnd
    ensures c.states != {} ==> m.homeState in c.states || m.awayState in c.states
    ensures c.teams != {} ==> m.homeTeam in c.teams || m.awayTeam in c.teams
  {
    var r := Filtered(data, c);
    FilterMembers(data, Passes(c));
    var i :| 0 <= i < |r| && r[i] == m;
  }

  /** Every match of the dataset that satisfies all active predicates is in the view. */
  lemma FilteredComplete(data: seq<Match>, c: Criteria, m: Match)
    requires m in data
    requires c.roundMin <= m.round <= c.roundMax && c.dateStart <= m.date <= c.dateEnd
    requires c.states != {} ==> m.homeState in c.states || m.awayState in c.states
    requires c.teams != {} ==> m.homeTeam in c.teams || m.awayTeam in c.teams
    ensures m in Filtered(data, c)
  {
    FilterMembers(data, Passes(c));
    var i :| 0 <= i < |data| && data[i] == m;
  }
}
