/** What the restarting sort returns: everyone once, in the order its tiebreakers give, whatever the input order. */
module LegacyTheorems {
  import opened Entries
  import opened Sorting
  import opened LegacyStandings

  function TiedIn(c: Comparison, subset: set<Entry>, x: Entry): (tied: set<Entry>)
    ensures tied <= subset
  {
    set z | z in subset && c(subset, z, x) == 0.0
  }

  lemma {:induction false} SubsetSize(a: set<Entry>, b: set<Entry>)
    requires a <= b
    ensures |a| <= |b| && (|a| == |b| ==> a == b)
  {
    assert b == a + (b - a);
    assert |b| == |a| + |b - a|;
  }

  /**
   * The current tiebreaker puts x ahead; or x and y tie on it, and go on among the entries tied with them: from the
   * first tiebreaker if those are fewer, from the next one if all of the subset ties. Ids come last.
   */
  predicate Precedes(tiebreakers: seq<Comparison>, subset: set<Entry>, index: nat, x: Entry, y: Entry)
    decreases |subset|, |tiebreakers| - index
  {
    if index >= |tiebreakers| then x < y
    else
      var c := tiebreakers[index];
      var tied := TiedIn(c, subset, x);
      SubsetSize(tied, subset);
      c(subset, x, y) < 0.0 ||
      (c(subset, x, y) == 0.0 &&
       if |tied| < |subset| then Precedes(tiebreakers, tied, 0, x, y)
       else Precedes(tiebreakers, subset, index + 1, x, y))
  }

  /** The order of the subset's teams. */
  function OrderOf(tiebreakers: seq<Comparison>, subset: set<Entry>, index: nat): (Entry, Entry) -> bool {
    (x: Entry, y: Entry) => x in subset && y in subset && Precedes(tiebreakers, subset, index, x, y)
  }

  lemma {:induction false} SameTies(c: Comparison, subset: set<Entry>, x: Entry, y: Entry)
    requires Preorder(c, subset) && x in subset && y in subset && c(subset, x, y) == 0.0
    ensures TiedIn(c, subset, x) == TiedIn(c, subset, y) && x in TiedIn(c, subset, x) && y in TiedIn(c, subset, x)
  {
    forall z | z in subset ensures c(subset, z, x) == 0.0 <==> c(subset, z, y) == 0.0 {
      TiesTransitive(c, subset, z, x, y);
      TiesTransitive(c, subset, z, y, x);
    }
  }

  lemma {:induction false} TiesTransitive(c: Comparison, subset: set<Entry>, x: Entry, y: Entry, z: Entry)
    requires Preorder(c, subset) && x in subset && y in subset && z in subset
    ensures c(subset, x, y) == 0.0 <==> c(subset, y, x) == 0.0
    ensures c(subset, x, y) == 0.0 && c(subset, y, z) == 0.0 ==> c(subset, x, z) == 0.0
  {
  }

  lemma {:induction false} PrecedesAsymmetric(
      tiebreakers: seq<Comparison>, subset: set<Entry>, index: nat, x: Entry, y: Entry)
    requires Coherent(tiebreakers, subset) && x in subset && y in subset
    requires Precedes(tiebreakers, subset, index, x, y)
    ensures !Precedes(tiebreakers, subset, index, y, x)
    decreases |subset|, |tiebreakers| - index
  {
    if index < |tiebreakers| {
      var c := tiebreakers[index];
      assert Everywhere(c, subset) && Preorder(c, subset);
      if c(subset, x, y) == 0.0 {
        var tied := TiedIn(c, subset, x);
        SameTies(c, subset, x, y);
        SubsetSize(tied, subset);
        if |tied| < |subset| {
          PrecedesAsymmetric(tiebreakers, tied, 0, x, y);
        } else {
          PrecedesAsymmetric(tiebreakers, subset, index + 1, x, y);
        }
      }
    }
  }

  // ----- The groups the sort recurses on -----

  /** What is left of the sorted list: tied groups, those ahead first, each complete within the subset. */
  ghost predicate Remaining(c: Comparison, subset: set<Entry>, groups: seq<seq<Entry>>) {
    Descending(c, subset, groups) && Distinct(Flatten(groups)) && (forall x | x in Flatten(groups) :: x in subset) &&
    (forall k, x | 0 <= k < |groups| && x in groups[k] :: Members(groups[k]) == TiedIn(c, subset, x))
  }

  lemma {:induction false} FlattenSplits(groups: seq<seq<Entry>>, x: Entry) returns (k: nat)
    requires x in Flatten(groups)
    ensures k < |groups| && x in groups[k]
  {
    if x in groups[0] {
      k := 0;
    } else {
      var l := FlattenSplits(groups[1..], x);
      k := l + 1;
    }
  }

  lemma {:induction false} GroupsRemaining(c: Comparison, teams: seq<Entry>)
    requires teams != [] && Distinct(teams) && Preorder(c, Members(teams))
    ensures Sort(Ahead(c, Members(teams)), teams) != []
    ensures Remaining(c, Members(teams), Runs(c, Members(teams), Sort(Ahead(c, Members(teams)), teams)))
    ensures SameEntries(Flatten(Runs(c, Members(teams), Sort(Ahead(c, Members(teams)), teams))), teams)
  {
    var subset := Members(teams);
    GroupsFit(c, teams);
    var sorted := Sort(Ahead(c, subset), teams);
    var groups := Runs(c, subset, sorted);
    AheadStrictWeak(c, teams);
    SortSorts(Ahead(c, subset), teams);
    SortPermutes(Ahead(c, subset), teams);
    SortMembers(Ahead(c, subset), teams);
    PermutationApart((x: Entry, y: Entry) => x == y, teams, sorted);
    FirstIsHighest(c, subset, sorted);
    assert c(subset, sorted[0], sorted[0]) == 0.0;
    RunsDescend(c, subset, [sorted[0]], sorted[1..]);
    forall k, x | 0 <= k < |groups| && x in groups[k]
      ensures Members(groups[k]) == TiedIn(c, subset, x)
    {
      GroupComplete(c, teams, groups, k, x);
    }
  }

  lemma {:induction false} GroupComplete(c: Comparison, teams: seq<Entry>, groups: seq<seq<Entry>>, k: nat, x: Entry)
    requires Preorder(c, Members(teams)) && Descending(c, Members(teams), groups)
    requires SameEntries(Flatten(groups), teams) && k < |groups| && x in groups[k]
    ensures Members(groups[k]) == TiedIn(c, Members(teams), x)
  {
    var subset := Members(teams);
    InFlatten(groups, k, x);
    forall z ensures z in groups[k] <==> z in teams && c(subset, z, x) == 0.0 {
      if z in groups[k] {
        InFlatten(groups, k, z);
      }
      if z in teams && c(subset, z, x) == 0.0 {
        var l := FlattenSplits(groups, z);
        assert z in subset && x in subset;
        assert l == k;
      }
    }
  }

  // ----- Everyone once, and in order -----

  lemma {:induction false} CoherentBelow(tiebreakers: seq<Comparison>, teams: set<Entry>, subset: set<Entry>)
    requires Coherent(tiebreakers, teams) && subset <= teams
    ensures Coherent(tiebreakers, subset)
  {
    forall k | 0 <= k < |tiebreakers| ensures Everywhere(tiebreakers[k], subset) {
      assert Everywhere(tiebreakers[k], teams);
    }
  }

  lemma {:induction false} SortKeepsTeams(tiebreakers: seq<Comparison>, teams: seq<Entry>, index: nat)
    requires Distinct(teams) && Coherent(tiebreakers, Members(teams))
    ensures SameEntries(SortTeams(tiebreakers, teams, index), teams)
    ensures Arranged(OrderOf(tiebreakers, Members(teams), index), SortTeams(tiebreakers, teams, index))
    decreases |teams|, |tiebreakers| - index, 1, 0
  {
    if |teams| > 1 && index < |tiebreakers| {
      var c, subset := tiebreakers[index], Members(teams);
      assert Everywhere(c, subset) && Preorder(c, subset);
      GroupsFit(c, teams);
      GroupsRemaining(c, teams);
      CountMembers(teams);
      ResolveKeepsTeams(tiebreakers, Runs(c, subset, Sort(Ahead(c, subset), teams)), subset, index);
    } else if |teams| > 1 {
      var r := SortTeams(tiebreakers, teams, index);
      forall i, j | 0 <= i < j < |r| ensures OrderOf(tiebreakers, Members(teams), index)(r[i], r[j]) {
        assert r[i] in r && r[j] in r;
      }
    }
  }

  lemma {:induction false} ResolveKeepsTeams(
      tiebreakers: seq<Comparison>, groups: seq<seq<Entry>>, subset: set<Entry>, index: nat)
    requires index < |tiebreakers| && Coherent(tiebreakers, subset) && Remaining(tiebreakers[index], subset, groups)
    requires forall k | 0 <= k < |groups| :: |groups[k]| <= |subset|
    ensures SameEntries(Resolve(tiebreakers, groups, |subset|, index), Flatten(groups))
    ensures Arranged(OrderOf(tiebreakers, subset, index), Resolve(tiebreakers, groups, |subset|, index))
    decreases |subset|, |tiebreakers| - index, 0, |groups|
  {
    if groups != [] {
      var c := tiebreakers[index];
      var group, others := groups[0], groups[1..];
      var next := if |group| < |subset| then 0 else index + 1;
      RemainingRest(c, subset, groups);
      CoherentBelow(tiebreakers, subset, Members(group));
      SortKeepsTeams(tiebreakers, group, next);
      ResolveKeepsTeams(tiebreakers, others, subset, index);
      CountMembers(group);
      JoinArranged(tiebreakers, subset, index, groups,
                   SortTeams(tiebreakers, group, next), Resolve(tiebreakers, others, |subset|, index));
    }
  }

  lemma {:induction false} RemainingRest(c: Comparison, subset: set<Entry>, groups: seq<seq<Entry>>)
    requires groups != [] && Remaining(c, subset, groups)
    ensures Distinct(groups[0]) && Members(groups[0]) <= subset && Remaining(c, subset, groups[1..])
  {
    var first, rest := groups[0], Flatten(groups[1..]);
    assert Flatten(groups) == first + rest;
    forall i, j | 0 <= i < j < |first| ensures first[i] != first[j] {
      assert (first + rest)[i] != (first + rest)[j];
    }
    forall i, j | 0 <= i < j < |rest| ensures rest[i] != rest[j] {
      assert (first + rest)[|first| + i] != (first + rest)[|first| + j];
    }
  }

  /** Within the first group its own order decides; across groups the current tiebreaker does. */
  lemma {:induction false} JoinArranged(
      tiebreakers: seq<Comparison>, subset: set<Entry>, index: nat, groups: seq<seq<Entry>>,
      first: seq<Entry>, second: seq<Entry>)
    requires index < |tiebreakers| && groups != [] && Remaining(tiebreakers[index], subset, groups)
    requires |groups[0]| == |Members(groups[0])| <= |subset|
    requires SameEntries(first, groups[0]) && SameEntries(second, Flatten(groups[1..]))
    requires Arranged(OrderOf(tiebreakers, Members(groups[0]), if |groups[0]| < |subset| then 0 else index + 1), first)
    requires Arranged(OrderOf(tiebreakers, subset, index), second)
    ensures SameEntries(first + second, Flatten(groups))
    ensures Arranged(OrderOf(tiebreakers, subset, index), first + second)
  {
    var before := OrderOf(tiebreakers, subset, index);
    forall i, j | 0 <= i < j < |first + second| ensures before((first + second)[i], (first + second)[j]) {
      if j < |first| {
        InFirstGroup(tiebreakers, subset, index, groups, first, i, j);
      } else if i < |first| {
        AcrossGroups(tiebreakers, subset, index, groups, first[i], second[j - |first|]);
      } else {
        assert before(second[i - |first|], second[j - |first|]);
      }
    }
  }

  lemma {:induction false} InFirstGroup(
      tiebreakers: seq<Comparison>, subset: set<Entry>, index: nat, groups: seq<seq<Entry>>, first: seq<Entry>, i: nat, j: nat)
    requires index < |tiebreakers| && groups != [] && Remaining(tiebreakers[index], subset, groups)
    requires |groups[0]| == |Members(groups[0])| <= |subset| && SameEntries(first, groups[0]) && i < j < |first|
    requires Arranged(OrderOf(tiebreakers, Members(groups[0]), if |groups[0]| < |subset| then 0 else index + 1), first)
    ensures OrderOf(tiebreakers, subset, index)(first[i], first[j])
  {
    var tied, x, y := Members(groups[0]), first[i], first[j];
    assert x in first && y in first && x in groups[0] && y in groups[0];
    InFlatten(groups, 0, x);
    InFlatten(groups, 0, y);
    assert tied == TiedIn(tiebreakers[index], subset, x);
    SubsetSize(tied, subset);
    assert OrderOf(tiebreakers, tied, if |tied| < |subset| then 0 else index + 1)(x, y);
  }

  lemma {:induction false} AcrossGroups(
      tiebreakers: seq<Comparison>, subset: set<Entry>, index: nat, groups: seq<seq<Entry>>, x: Entry, y: Entry)
    requires index < |tiebreakers| && groups != [] && Remaining(tiebreakers[index], subset, groups)
    requires x in groups[0] && y in Flatten(groups[1..])
    ensures OrderOf(tiebreakers, subset, index)(x, y)
  {
    var k := FlattenSplits(groups[1..], y);
    assert y in groups[k + 1];
    InFlatten(groups, 0, x);
    InFlatten(groups, k + 1, y);
  }

  /** Sorted by the same order, the same teams can only be listed in one way. */
  lemma {:induction false} SortedUniquely(tiebreakers: seq<Comparison>, teams: seq<Entry>, r: seq<Entry>)
    requires Distinct(teams) && Coherent(tiebreakers, Members(teams))
    requires SameEntries(r, teams) && Arranged(OrderOf(tiebreakers, Members(teams), 0), r)
    ensures SortTeams(tiebreakers, teams, 0) == r
  {
    SortKeepsTeams(tiebreakers, teams, 0);
    var before := OrderOf(tiebreakers, Members(teams), 0);
    forall x, y: Entry | before(x, y) ensures !before(y, x) {
      PrecedesAsymmetric(tiebreakers, Members(teams), 0, x, y);
    }
    forall x ensures x in SortTeams(tiebreakers, teams, 0) <==> x in r {
      assert x in r <==> x in teams;
      assert x in SortTeams(tiebreakers, teams, 0) <==> x in teams;
    }
    ArrangedUnique(before, SortTeams(tiebreakers, teams, 0), r);
  }

  /** The result does not depend on the order the teams came in. */
  lemma {:induction false} SortIgnoresInputOrder(tiebreakers: seq<Comparison>, teams: seq<Entry>, teams': seq<Entry>)
    requires Distinct(teams) && Distinct(teams') && Members(teams) == Members(teams')
    requires Coherent(tiebreakers, Members(teams))
    ensures SortTeams(tiebreakers, teams, 0) == SortTeams(tiebreakers, teams', 0)
  {
    SortKeepsTeams(tiebreakers, teams', 0);
    forall x ensures x in teams <==> x in teams' {
      assert x in teams <==> x in Members(teams);
      assert x in teams' <==> x in Members(teams');
    }
    SortedUniquely(tiebreakers, teams, SortTeams(tiebreakers, teams', 0));
  }

  /** Nobody is behind a team that comes later, by the first tiebreaker. */
  lemma {:induction false} SortedByFirstTiebreaker(tiebreakers: seq<Comparison>, teams: seq<Entry>, i: nat, j: nat)
    requires Distinct(teams) && Coherent(tiebreakers, Members(teams)) && tiebreakers != []
    requires i < j < |SortTeams(tiebreakers, teams, 0)|
    ensures
      var r := SortTeams(tiebreakers, teams, 0);
      tiebreakers[0](Members(teams), r[i], r[j]) <= 0.0
  {
    SortKeepsTeams(tiebreakers, teams, 0);
    var r := SortTeams(tiebreakers, teams, 0);
    assert OrderOf(tiebreakers, Members(teams), 0)(r[i], r[j]);
  }
}
