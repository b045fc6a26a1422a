/** The loops of the older ranking, and the ranks it hands out. */
module LegacyRanks {
  import opened Entries
  import NatSets
  import opened Sorting
  import opened LegacyStandings

  // ----- The sort -----

  lemma {:induction false} ResolveNext(
      tiebreakers: seq<Comparison>, groups: seq<seq<Entry>>, total: nat, index: nat, k: nat)
    requires index < |tiebreakers| && (forall l | 0 <= l < |groups| :: |groups[l]| <= total) && k < |groups|
    ensures
      Resolve(tiebreakers, groups[k..], total, index) ==
      SortTeams(tiebreakers, groups[k], if |groups[k]| < total then 0 else index + 1) +
      Resolve(tiebreakers, groups[k + 1..], total, index)
  {
    assert groups[k..][0] == groups[k] && groups[k..][1..] == groups[k + 1..];
  }

  method ResolveLoop(tiebreakers: seq<Comparison>, groups: seq<seq<Entry>>, total: nat, index: nat)
    returns (resolved: seq<Entry>)
    requires index < |tiebreakers| && forall l | 0 <= l < |groups| :: |groups[l]| <= total
    ensures resolved == Resolve(tiebreakers, groups, total, index)
    decreases total, |tiebreakers| - index, 0
  {
    resolved := [];
    ghost var whole := Resolve(tiebreakers, groups, total, index);
    assert groups[0..] == groups;
    for k := 0 to |groups|
      invariant resolved + Resolve(tiebreakers, groups[k..], total, index) == whole
    {
      ResolveNext(tiebreakers, groups, total, index, k);
      var next := if |groups[k]| < total then 0 else index + 1;
      var sorted := SortTeamsLoop(tiebreakers, groups[k], next);
      resolved := resolved + sorted;
    }
  }

  method SortTeamsLoop(tiebreakers: seq<Comparison>, teams: seq<Entry>, index: nat) returns (r: seq<Entry>)
    ensures r == SortTeams(tiebreakers, teams, index)
    decreases |teams|, |tiebreakers| - index, 1
  {
    if |teams| <= 1 {
      return teams;
    }
    if index >= |tiebreakers| {
      return NatSets.Sorted(Members(teams));
    }
    var c, subset := tiebreakers[index], Members(teams);
    GroupsFit(c, teams);
    var groups := GroupTied(c, subset, Sort(Ahead(c, subset), teams));
    r := ResolveLoop(tiebreakers, groups, |teams|, index);
  }

  // ----- Ranks -----

  /** Level on every tiebreaker, each read between these two alone. */
  predicate FullyEqual(tiebreakers: seq<Comparison>, a: Entry, b: Entry) {
    forall k | 0 <= k < |tiebreakers| :: tiebreakers[k]({a, b}, a, b) == 0.0
  }

  function RankAt(tiebreakers: seq<Comparison>, order: seq<Entry>, i: nat): nat
    requires i < |order|
  {
    if i > 0 && FullyEqual(tiebreakers, order[i], order[i - 1]) then RankAt(tiebreakers, order, i - 1) else i + 1
  }

  method CompareAll(tiebreakers: seq<Comparison>, a: Entry, b: Entry) returns (equal: bool)
    ensures equal == FullyEqual(tiebreakers, a, b)
  {
    for k := 0 to |tiebreakers|
      invariant forall l | 0 <= l < k :: tiebreakers[l]({a, b}, a, b) == 0.0
    {
      if tiebreakers[k]({a, b}, a, b) != 0.0 {
        return false;
      }
    }
    return true;
  }

  function RanksOf(tiebreakers: seq<Comparison>, order: seq<Entry>): seq<nat> {
    seq(|order|, i requires 0 <= i < |order| => RankAt(tiebreakers, order, i))
  }

  ghost predicate RankedUpTo(order: seq<Entry>, wanted: seq<nat>, ranks: map<Entry, nat>, n: nat)
    requires n <= |order| == |wanted|
  {
    ranks.Keys == Members(order[..n]) &&
    forall k | 0 <= k < n :: order[k] in ranks && ranks[order[k]] == wanted[k]
  }

  lemma {:induction false} RankOneMore(order: seq<Entry>, wanted: seq<nat>, ranks: map<Entry, nat>, i: nat)
    requires Distinct(order) && i < |order| == |wanted| && RankedUpTo(order, wanted, ranks, i)
    ensures RankedUpTo(order, wanted, ranks[order[i] := wanted[i]], i + 1)
  {
    assert order[..i + 1] == order[..i] + [order[i]];
  }

  lemma {:induction false} RankFromPrevious(tiebreakers: seq<Comparison>, order: seq<Entry>, i: nat)
    requires i < |order|
    ensures
      RanksOf(tiebreakers, order)[i] ==
      if i > 0 && FullyEqual(tiebreakers, order[i], order[i - 1]) then RanksOf(tiebreakers, order)[i - 1] else i + 1
  {
  }

  method AssignRanks(tiebreakers: seq<Comparison>, order: seq<Entry>) returns (ranks: map<Entry, nat>)
    requires Distinct(order)
    ensures RankedUpTo(order, RanksOf(tiebreakers, order), ranks, |order|)
  {
    ghost var wanted := RanksOf(tiebreakers, order);
    ranks := map[];
    if order == [] {
      return;
    }
    RankFromPrevious(tiebreakers, order, 0);
    RankOneMore(order, wanted, ranks, 0);
    ranks := ranks[order[0] := 1];
    for i := 1 to |order|
      invariant RankedUpTo(order, wanted, ranks, i)
    {
      var equal := CompareAll(tiebreakers, order[i], order[i - 1]);
      var rank := if equal then ranks[order[i - 1]] else i + 1;
      RankFromPrevious(tiebreakers, order, i);
      RankOneMore(order, wanted, ranks, i);
      ranks := ranks[order[i] := rank];
    }
  }

  /** A rank is one more than the number of entries before the run of neighbours that are level. */
  lemma {:induction false} RankStartsRun(tiebreakers: seq<Comparison>, order: seq<Entry>, i: nat)
    requires i < |order|
    ensures
      var start := RankAt(tiebreakers, order, i) - 1;
      0 <= start <= i &&
      (forall k | start < k <= i :: FullyEqual(tiebreakers, order[k], order[k - 1])) &&
      (start > 0 ==> !FullyEqual(tiebreakers, order[start], order[start - 1]))
    decreases i
  {
    if i > 0 && FullyEqual(tiebreakers, order[i], order[i - 1]) {
      RankStartsRun(tiebreakers, order, i - 1);
    }
  }

  /** Two entries share a rank exactly when all neighbours from one to the other are level. */
  lemma {:induction false} SharedRankExactly(tiebreakers: seq<Comparison>, order: seq<Entry>, i: nat, j: nat)
    requires i < j < |order|
    ensures
      RankAt(tiebreakers, order, i) == RankAt(tiebreakers, order, j) <==>
      forall k | i < k <= j :: FullyEqual(tiebreakers, order[k], order[k - 1])
  {
    var start := RankAt(tiebreakers, order, j) - 1;
    RankStartsRun(tiebreakers, order, i);
    RankStartsRun(tiebreakers, order, j);
    if forall k | i < k <= j :: FullyEqual(tiebreakers, order[k], order[k - 1]) {
      SameRankAlong(tiebreakers, order, i, j);
    } else {
      var k :| i < k <= j && !FullyEqual(tiebreakers, order[k], order[k - 1]);
      assert k <= start;
    }
  }

  lemma {:induction false} SameRankAlong(tiebreakers: seq<Comparison>, order: seq<Entry>, i: nat, j: nat)
    requires i <= j < |order|
    requires forall k | i < k <= j :: FullyEqual(tiebreakers, order[k], order[k - 1])
    ensures RankAt(tiebreakers, order, i) == RankAt(tiebreakers, order, j)
    decreases j
  {
    if i < j {
      SameRankAlong(tiebreakers, order, i, j - 1);
    }
  }
}
