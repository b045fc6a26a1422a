/** The older ranking: whenever a tied group gets smaller, its chain of tiebreakers starts again. */
module LegacyStandings {
  import opened Entries
  import NatSets
  import opened Sorting

  /** Compares two teams, given the subset that is still tied; a negative result puts the first one ahead. */
  type Comparison = (set<Entry>, Entry, Entry) -> real

  /** A strategy that orders the teams of the subset, ties being possible. */
  ghost predicate Preorder(c: Comparison, subset: set<Entry>) {
    && (forall a, b | a in subset && b in subset :: c(subset, a, b) < 0.0 <==> c(subset, b, a) > 0.0)
    && (forall a, b, d | a in subset && b in subset && d in subset ::
          c(subset, a, b) <= 0.0 && c(subset, b, d) <= 0.0 ==> c(subset, a, d) <= 0.0)
  }

  /** Every tiebreaker does so whatever part of the teams is still tied. */
  ghost predicate Coherent(tiebreakers: seq<Comparison>, teams: set<Entry>) {
    forall k | 0 <= k < |tiebreakers| :: Everywhere(tiebreakers[k], teams)
  }

  ghost predicate Everywhere(c: Comparison, teams: set<Entry>) {
    forall subset: set<Entry> | subset <= teams :: Preorder(c, subset)
  }

  function Ahead(c: Comparison, subset: set<Entry>): (Entry, Entry) -> bool {
    (a: Entry, b: Entry) => c(subset, a, b) < 0.0
  }

  lemma {:induction false} AheadStrictWeak(c: Comparison, teams: seq<Entry>)
    requires Preorder(c, Members(teams))
    ensures StrictWeakOn(Ahead(c, Members(teams)), teams)
  {
    var subset := Members(teams);
    forall x, y, z | x in teams && y in teams && z in teams
      ensures Ahead(c, subset)(x, y) ==> !Ahead(c, subset)(y, x)
      ensures Ahead(c, subset)(x, y) && Ahead(c, subset)(y, z) ==> Ahead(c, subset)(x, z)
      ensures !Ahead(c, subset)(x, y) && !Ahead(c, subset)(y, z) ==> !Ahead(c, subset)(x, z)
    {
      assert x in subset && y in subset && z in subset;
    }
  }

  // ----- Tied runs of a sorted list -----

  /** Continues the current run while neighbours tie, and starts a new one when they do not. */
  function RunsFrom(c: Comparison, subset: set<Entry>, run: seq<Entry>, s: seq<Entry>): seq<seq<Entry>>
    requires run != []
    decreases |s|
  {
    if s == [] then [run]
    else if c(subset, s[0], run[|run| - 1]) == 0.0 then RunsFrom(c, subset, run + [s[0]], s[1..])
    else [run] + RunsFrom(c, subset, [s[0]], s[1..])
  }

  function Runs(c: Comparison, subset: set<Entry>, s: seq<Entry>): seq<seq<Entry>>
    requires s != []
  {
    RunsFrom(c, subset, [s[0]], s[1..])
  }

  method GroupTied(c: Comparison, subset: set<Entry>, s: seq<Entry>) returns (groups: seq<seq<Entry>>)
    requires s != []
    ensures groups == Runs(c, subset, s)
  {
    groups := [];
    var current := [s[0]];
    for i := 1 to |s|
      invariant current != [] && current[|current| - 1] == s[i - 1]
      invariant groups + RunsFrom(c, subset, current, s[i..]) == Runs(c, subset, s)
    {
      assert s[i..][1..] == s[i + 1..];
      if c(subset, s[i], s[i - 1]) == 0.0 {
        current := current + [s[i]];
      } else {
        groups := groups + [current];
        current := [s[i]];
      }
    }
    groups := groups + [current];
  }

  function Flatten(groups: seq<seq<Entry>>): seq<Entry> {
    if groups == [] then [] else groups[0] + Flatten(groups[1..])
  }

  ghost predicate AllTied(c: Comparison, subset: set<Entry>, s: seq<Entry>) {
    forall x, y | x in s && y in s :: c(subset, x, y) == 0.0
  }

  /** Each group is tied, and ahead of everything in later groups. */
  ghost predicate Descending(c: Comparison, subset: set<Entry>, groups: seq<seq<Entry>>) {
    (forall k | 0 <= k < |groups| :: groups[k] != [] && AllTied(c, subset, groups[k])) &&
    (forall k, l, x, y | 0 <= k < l < |groups| && x in groups[k] && y in groups[l] :: c(subset, x, y) < 0.0)
  }

  lemma {:induction false} RunsFlatten(c: Comparison, subset: set<Entry>, run: seq<Entry>, s: seq<Entry>)
    requires run != []
    ensures Flatten(RunsFrom(c, subset, run, s)) == run + s
    decreases |s|
  {
    if s == [] {
      assert [run][1..] == [];
      assert run + [] == run;
    } else if c(subset, s[0], run[|run| - 1]) == 0.0 {
      RunsFlatten(c, subset, run + [s[0]], s[1..]);
      assert run + [s[0]] + s[1..] == run + s;
    } else {
      RunsFlatten(c, subset, [s[0]], s[1..]);
      assert ([run] + RunsFrom(c, subset, [s[0]], s[1..]))[1..] == RunsFrom(c, subset, [s[0]], s[1..]);
      assert [s[0]] + s[1..] == s;
    }
  }

  lemma {:induction false} InFlatten(groups: seq<seq<Entry>>, k: nat, x: Entry)
    requires k < |groups| && x in groups[k]
    ensures x in Flatten(groups)
    decreases |groups|
  {
    if k > 0 {
      InFlatten(groups[1..], k - 1, x);
    }
  }

  lemma {:induction false} FlattenLength(groups: seq<seq<Entry>>, k: nat)
    requires k < |groups|
    ensures |groups[k]| <= |Flatten(groups)|
    decreases |groups|
  {
    if k > 0 {
      FlattenLength(groups[1..], k - 1);
    }
  }

  /** Everyone in s belongs to the subset, and nobody in it is ahead of x. */
  ghost predicate NotBehind(c: Comparison, subset: set<Entry>, x: Entry, s: seq<Entry>) {
    x in subset && forall y | y in s :: y in subset && c(subset, x, y) <= 0.0
  }

  lemma {:induction false} FirstIsHighest(c: Comparison, subset: set<Entry>, s: seq<Entry>)
    requires s != [] && Preorder(c, subset) && SortedBy(Ahead(c, subset), s) && forall y | y in s :: y in subset
    ensures NotBehind(c, subset, s[0], s[1..])
  {
    assert s[0] in s;
    forall y | y in s[1..] ensures y in subset && c(subset, s[0], y) <= 0.0 {
      var j :| 0 <= j < |s[1..]| && s[1..][j] == y;
      assert y == s[j + 1] && y in s;
      assert !Ahead(c, subset)(s[j + 1], s[0]);
    }
  }

  /** A tied run that the next element does not tie with is ahead of everything from there on. */
  lemma {:induction false} RunIsAhead(c: Comparison, subset: set<Entry>, run: seq<Entry>, s: seq<Entry>)
    requires Preorder(c, subset) && run != [] && s != [] && AllTied(c, subset, run)
    requires (forall x | x in run :: x in subset) && NotBehind(c, subset, run[|run| - 1], s)
    requires c(subset, s[0], run[|run| - 1]) != 0.0 && NotBehind(c, subset, s[0], s[1..])
    ensures forall x, y | x in run && y in s :: c(subset, x, y) < 0.0
  {
    var last := run[|run| - 1];
    assert last in run && s[0] in s && s == [s[0]] + s[1..];
    forall x, y | x in run && y in s ensures c(subset, x, y) < 0.0 {
      assert c(subset, x, last) <= 0.0 && c(subset, last, x) <= 0.0;
      assert y == s[0] || c(subset, s[0], y) <= 0.0;
      AheadOrTied(c, subset, last, x, y, s[0]);
    }
  }

  lemma {:induction false} AheadOrTied(c: Comparison, subset: set<Entry>, last: Entry, x: Entry, y: Entry, first: Entry)
    requires Preorder(c, subset) && last in subset && x in subset && y in subset && first in subset
    requires c(subset, last, x) <= 0.0 && c(subset, x, last) <= 0.0 && c(subset, last, first) < 0.0
    requires y == first || c(subset, first, y) <= 0.0
    ensures c(subset, x, y) < 0.0
  {
    assert c(subset, first, last) > 0.0;
    assert c(subset, x, y) >= 0.0 ==> c(subset, y, x) <= 0.0;
    assert c(subset, y, x) <= 0.0 ==> c(subset, first, x) <= 0.0;
    assert c(subset, first, x) <= 0.0 ==> c(subset, first, last) <= 0.0;
  }

  lemma {:induction false} JoinDescending(c: Comparison, subset: set<Entry>, run: seq<Entry>, later: seq<seq<Entry>>)
    requires run != [] && AllTied(c, subset, run) && Descending(c, subset, later)
    requires forall x, y | x in run && y in Flatten(later) :: c(subset, x, y) < 0.0
    ensures Descending(c, subset, [run] + later)
  {
    forall l, x, y | 0 <= l < |later| && x in run && y in later[l] ensures c(subset, x, y) < 0.0 {
      InFlatten(later, l, y);
    }
  }

  lemma {:induction false} ExtendTied(c: Comparison, subset: set<Entry>, run: seq<Entry>, x: Entry)
    requires Preorder(c, subset) && run != [] && AllTied(c, subset, run) && x in subset
    requires (forall y | y in run :: y in subset) && c(subset, x, run[|run| - 1]) == 0.0
    ensures AllTied(c, subset, run + [x])
  {
    var last := run[|run| - 1];
    assert last in run;
    forall y | y in run ensures c(subset, x, y) == 0.0 && c(subset, y, x) == 0.0 {
      assert c(subset, y, last) == 0.0 && c(subset, last, y) == 0.0;
      assert c(subset, last, x) == 0.0;
      assert c(subset, x, y) <= 0.0 && c(subset, y, x) <= 0.0;
    }
  }

  lemma {:induction false} RunsDescend(c: Comparison, subset: set<Entry>, run: seq<Entry>, s: seq<Entry>)
    requires Preorder(c, subset) && run != [] && AllTied(c, subset, run) && SortedBy(Ahead(c, subset), s)
    requires (forall x | x in run :: x in subset) && NotBehind(c, subset, run[|run| - 1], s)
    ensures Descending(c, subset, RunsFrom(c, subset, run, s))
    decreases |s|
  {
    if s != [] {
      assert s[0] in s;
      FirstIsHighest(c, subset, s);
      if c(subset, s[0], run[|run| - 1]) == 0.0 {
        ExtendTied(c, subset, run, s[0]);
        RunsDescend(c, subset, run + [s[0]], s[1..]);
      } else {
        RunsDescend(c, subset, [s[0]], s[1..]);
        RunsFlatten(c, subset, [s[0]], s[1..]);
        RunIsAhead(c, subset, run, s);
        assert [s[0]] + s[1..] == s;
        JoinDescending(c, subset, run, RunsFrom(c, subset, [s[0]], s[1..]));
      }
    }
  }

  // ----- The recursive sort -----

  lemma {:induction false} GroupsFit(c: Comparison, teams: seq<Entry>)
    requires teams != []
    ensures Sort(Ahead(c, Members(teams)), teams) != []
    ensures
      Flatten(Runs(c, Members(teams), Sort(Ahead(c, Members(teams)), teams))) == Sort(Ahead(c, Members(teams)), teams)
    ensures forall k | 0 <= k < |Runs(c, Members(teams), Sort(Ahead(c, Members(teams)), teams))| ::
      |Runs(c, Members(teams), Sort(Ahead(c, Members(teams)), teams))[k]| <= |teams|
  {
    var subset := Members(teams);
    SortPermutes(Ahead(c, subset), teams);
    var sorted := Sort(Ahead(c, subset), teams);
    RunsFlatten(c, subset, [sorted[0]], sorted[1..]);
    assert [sorted[0]] + sorted[1..] == sorted;
    forall k | 0 <= k < |Runs(c, subset, sorted)| ensures |Runs(c, subset, sorted)[k]| <= |teams| {
      FlattenLength(Runs(c, subset, sorted), k);
    }
  }

  /** Terminates because each call has fewer teams, or as many teams and fewer tiebreakers left. */
  function SortTeams(tiebreakers: seq<Comparison>, teams: seq<Entry>, index: nat): seq<Entry>
    decreases |teams|, |tiebreakers| - index, 1, 0
  {
    if |teams| <= 1 then teams
    else if index >= |tiebreakers| then NatSets.Sorted(Members(teams))
    else
      var c, subset := tiebreakers[index], Members(teams);
      GroupsFit(c, teams);
      Resolve(tiebreakers, Runs(c, subset, Sort(Ahead(c, subset), teams)), |teams|, index)
  }

  /** Sorts each group: from the first tiebreaker if the group shrank, from the next one if it did not. */
  function Resolve(tiebreakers: seq<Comparison>, groups: seq<seq<Entry>>, total: nat, index: nat): seq<Entry>
    requires index < |tiebreakers| && forall k | 0 <= k < |groups| :: |groups[k]| <= total
    decreases total, |tiebreakers| - index, 0, |groups|
  {
    if groups == [] then []
    else
      var next := if |groups[0]| < total then 0 else index + 1;
      SortTeams(tiebreakers, groups[0], next) + Resolve(tiebreakers, groups[1..], total, index)
  }
}
