/** When a shared rank means that the entries are level: exactly when head to head is not among the tiebreakers. */
module LegacyLevels {
  import opened Wrappers
  import opened Entries
  import opened Standings
  import opened LegacyStandings
  import opened LegacyTheorems
  import opened LegacyStrategies
  import opened LegacyRanks

  /** Without head to head no tiebreaker depends on who else is tied. */
  lemma {:induction false} LevelTransitive(p: Phase, strategies: seq<Strategy>, a: Entry, b: Entry, d: Entry)
    requires HeadToHead !in strategies
    requires FullyEqual(Chain(p, strategies), a, b) && FullyEqual(Chain(p, strategies), b, d)
    ensures FullyEqual(Chain(p, strategies), a, d)
  {
    forall k | 0 <= k < |strategies| ensures Chain(p, strategies)[k]({a, d}, a, d) == 0.0 {
      assert Chain(p, strategies)[k]({a, b}, a, b) == 0.0 && Chain(p, strategies)[k]({b, d}, b, d) == 0.0;
      assert strategies[k] in strategies;
    }
  }

  lemma {:induction false} LevelAlong(p: Phase, strategies: seq<Strategy>, order: seq<Entry>, i: nat, j: nat)
    requires HeadToHead !in strategies && i < j < |order|
    requires forall k | i < k <= j :: FullyEqual(Chain(p, strategies), order[k], order[k - 1])
    ensures FullyEqual(Chain(p, strategies), order[j], order[i])
    decreases j
  {
    if i + 1 < j {
      LevelAlong(p, strategies, order, i, j - 1);
      LevelTransitive(p, strategies, order[j], order[j - 1], order[i]);
    }
  }

  /** Nobody comes after a team that the first strategy on the list puts it over. */
  lemma {:induction false} FirstStrategyDecides(p: Phase, strategies: seq<Strategy>, teams: seq<Entry>, i: nat, j: nat)
    requires Distinct(teams) && strategies != [] && i < j < |SortTeams(Chain(p, strategies), teams, 0)|
    ensures
      var r := SortTeams(Chain(p, strategies), teams, 0);
      !Prefers(p, strategies[0], Members(teams), r[j], r[i])
  {
    var r := SortTeams(Chain(p, strategies), teams, 0);
    ChainCoherent(p, strategies, Members(teams));
    SortedByFirstTiebreaker(Chain(p, strategies), teams, i, j);
    assert Chain(p, strategies)[0] == Named(p, strategies[0]);
    NamedPrefers(p, strategies[0], Members(teams), r[i], r[j]);
  }

  ghost predicate SharedRanksAreLevel(tiebreakers: seq<Comparison>, order: seq<Entry>) {
    forall i: nat, j: nat | i < j < |order| && RankAt(tiebreakers, order, i) == RankAt(tiebreakers, order, j) ::
      FullyEqual(tiebreakers, order[j], order[i])
  }

  /** In every phase, entries that get the same rank are level on every tiebreaker. */
  ghost predicate RanksAreSound(strategies: seq<Strategy>) {
    forall p: Phase, teams: seq<Entry> | Distinct(teams) && Members(teams) == p.members ::
      SharedRanksAreLevel(Chain(p, strategies), SortTeams(Chain(p, strategies), teams, 0))
  }

  lemma {:induction false} RanksAreSoundExactly(strategies: seq<Strategy>)
    ensures RanksAreSound(strategies) <==> HeadToHead !in strategies
  {
    if HeadToHead in strategies {
      var tiebreakers := Chain(CIRCLE, strategies);
      CircleShared(strategies);
      assert Distinct([1, 2, 3]) && Members([1, 2, 3]) == CIRCLE.members;
      assert !SharedRanksAreLevel(tiebreakers, SortTeams(tiebreakers, [1, 2, 3], 0));
    } else {
      forall p: Phase, teams: seq<Entry> | Distinct(teams) && Members(teams) == p.members
        ensures SharedRanksAreLevel(Chain(p, strategies), SortTeams(Chain(p, strategies), teams, 0))
      {
        WithoutHeadToHead(p, strategies, SortTeams(Chain(p, strategies), teams, 0));
      }
    }
  }

  lemma {:induction false} WithoutHeadToHead(p: Phase, strategies: seq<Strategy>, order: seq<Entry>)
    requires HeadToHead !in strategies
    ensures SharedRanksAreLevel(Chain(p, strategies), order)
  {
    var tiebreakers := Chain(p, strategies);
    forall i: nat, j: nat | i < j < |order| && RankAt(tiebreakers, order, i) == RankAt(tiebreakers, order, j)
      ensures FullyEqual(tiebreakers, order[j], order[i])
    {
      SharedRankExactly(tiebreakers, order, i, j);
      LevelAlong(p, strategies, order, i, j);
    }
  }

  // ----- Three entries that head to head ties together, and in neighbouring pairs, but not in the third pair -----

  function Walkover(winner: Entry, loser: Entry): CountedMatch {
    CountedMatch(Some(winner), Some(loser), Some(winner), 0.0, 0.0, [])
  }

  /** Entry 1 beat 3, and 2 and 3 beat each other; 1 and 2 have not met. */
  const CIRCLE: Phase := Phase([Walkover(1, 3), Walkover(2, 3), Walkover(3, 2)], {1, 2, 3})

  /** A walkover is worth three points to its winner and no goals to anyone. */
  lemma {:induction false} WalkoverShare(winner: Entry, loser: Entry, subset: set<Entry>, x: Entry, c: Column)
    requires winner != loser && (c == TablePoints || c == ScoreFor || c == ScoreAgainst)
    ensures
      Share(Walkover(winner, loser), subset, LEGACY_RULE, x, c) ==
      When(c == TablePoints && winner in subset && loser in subset && x == winner, 3.0)
  {
  }

  lemma {:induction false} CircleCell(subset: set<Entry>, x: Entry, c: Column)
    requires c == TablePoints || c == ScoreFor || c == ScoreAgainst
    ensures
      Cell(CIRCLE.matches, subset, LEGACY_RULE, x, c) ==
      When(c == TablePoints && 3 in subset && ((x == 1 && 1 in subset) || (x in {2, 3} && 2 in subset)), 3.0)
  {
    var first, second, third := Walkover(1, 3), Walkover(2, 3), Walkover(3, 2);
    CellOfOne(first, subset, LEGACY_RULE, x, c);
    CellOfOne(second, subset, LEGACY_RULE, x, c);
    CellOfOne(third, subset, LEGACY_RULE, x, c);
    CellOfConcat([first], [second], subset, LEGACY_RULE, x, c);
    CellOfConcat([first] + [second], [third], subset, LEGACY_RULE, x, c);
    assert [first] + [second] + [third] == CIRCLE.matches;
    WalkoverShare(1, 3, subset, x, c);
    WalkoverShare(2, 3, subset, x, c);
    WalkoverShare(3, 2, subset, x, c);
  }

  lemma {:induction false} CircleValue(strategy: Strategy, subset: set<Entry>, x: Entry)
    ensures
      var seen := if strategy == Points then {1, 2, 3} else subset;
      StrategyValue(CIRCLE, strategy, subset, x) ==
      When((strategy == Points || strategy == HeadToHead) && 3 in seen &&
           ((x == 1 && 1 in seen) || (x in {2, 3} && 2 in seen)), 3.0)
  {
    CircleCell(subset, x, TablePoints);
    CircleCell({1, 2, 3}, x, TablePoints);
    CircleCell({1, 2, 3}, x, ScoreFor);
    CircleCell({1, 2, 3}, x, ScoreAgainst);
  }

  /** No strategy separates the three, or 1 from 2, or 2 from 3; head to head separates 1 from 3. */
  lemma {:induction false} CircleValues(strategy: Strategy)
    ensures forall x | x in {1, 2, 3} ::
      StrategyValue(CIRCLE, strategy, {1, 2, 3}, x) == StrategyValue(CIRCLE, strategy, {1, 2, 3}, 1)
    ensures StrategyValue(CIRCLE, strategy, {1, 2}, 1) == StrategyValue(CIRCLE, strategy, {1, 2}, 2)
    ensures StrategyValue(CIRCLE, strategy, {2, 3}, 2) == StrategyValue(CIRCLE, strategy, {2, 3}, 3)
    ensures StrategyValue(CIRCLE, HeadToHead, {1, 3}, 1) == 3.0
    ensures StrategyValue(CIRCLE, HeadToHead, {1, 3}, 3) == 0.0
  {
    CircleValue(strategy, {1, 2, 3}, 1);
    CircleValue(strategy, {1, 2, 3}, 2);
    CircleValue(strategy, {1, 2, 3}, 3);
    CircleValue(strategy, {1, 2}, 1);
    CircleValue(strategy, {1, 2}, 2);
    CircleValue(strategy, {2, 3}, 2);
    CircleValue(strategy, {2, 3}, 3);
    CircleValue(HeadToHead, {1, 3}, 1);
    CircleValue(HeadToHead, {1, 3}, 3);
  }

  lemma {:induction false} CircleById(strategies: seq<Strategy>, index: nat, x: Entry, y: Entry)
    requires 1 <= x < y <= 3
    ensures Precedes(Chain(CIRCLE, strategies), {1, 2, 3}, index, x, y)
    decreases |strategies| - index
  {
    if index < |strategies| {
      var c := Chain(CIRCLE, strategies)[index];
      assert c == Named(CIRCLE, strategies[index]);
      CircleValues(strategies[index]);
      assert x in {1, 2, 3} && y in {1, 2, 3};
      assert TiedIn(c, {1, 2, 3}, x) == {1, 2, 3};
      CircleById(strategies, index + 1, x, y);
    }
  }

  lemma {:induction false} CircleSorted(strategies: seq<Strategy>)
    ensures SortTeams(Chain(CIRCLE, strategies), [1, 2, 3], 0) == [1, 2, 3]
  {
    var teams: seq<Entry> := [1, 2, 3];
    assert Members(teams) == {1, 2, 3};
    ChainCoherent(CIRCLE, strategies, Members(teams));
    var before := OrderOf(Chain(CIRCLE, strategies), Members(teams), 0);
    forall i, j | 0 <= i < j < |teams| ensures before(teams[i], teams[j]) {
      CircleById(strategies, 0, teams[i], teams[j]);
    }
    SortedUniquely(Chain(CIRCLE, strategies), teams, teams);
  }

  lemma {:induction false} CircleLevel(strategies: seq<Strategy>)
    ensures FullyEqual(Chain(CIRCLE, strategies), 2, 1) && FullyEqual(Chain(CIRCLE, strategies), 3, 2)
    ensures HeadToHead in strategies ==> !FullyEqual(Chain(CIRCLE, strategies), 3, 1)
  {
    var tiebreakers := Chain(CIRCLE, strategies);
    assert {2, 1} == {1, 2} && {3, 2} == {2, 3} && {3, 1} == {1, 3};
    forall k | 0 <= k < |strategies| ensures tiebreakers[k]({2, 1}, 2, 1) == 0.0 && tiebreakers[k]({3, 2}, 3, 2) == 0.0 {
      CircleValues(strategies[k]);
    }
    if k :| 0 <= k < |strategies| && strategies[k] == HeadToHead {
      CircleValues(HeadToHead);
      assert tiebreakers[k]({3, 1}, 3, 1) != 0.0;
    }
  }

  /** The first and the last share rank 1, and the match between them had a winner. */
  lemma {:induction false} CircleShared(strategies: seq<Strategy>)
    requires HeadToHead in strategies
    ensures SortTeams(Chain(CIRCLE, strategies), [1, 2, 3], 0) == [1, 2, 3]
    ensures RankAt(Chain(CIRCLE, strategies), [1, 2, 3], 0) == RankAt(Chain(CIRCLE, strategies), [1, 2, 3], 2) == 1
    ensures !FullyEqual(Chain(CIRCLE, strategies), 3, 1)
  {
    CircleSorted(strategies);
    CircleLevel(strategies);
  }
}
