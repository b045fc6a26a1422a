/** The five strategies a tiebreaker of the older ranking can name. */
module LegacyStrategies {
  import opened Entries
  import opened Standings
  import opened LegacyStandings

  /** `Unknown` is a name without a strategy, which ties everyone. */
  datatype Strategy = Points | GoalDifference | GoalsFor | HeadToHead | Unknown

  /** Three points for a win, one for a draw. */
  const LEGACY_RULE: Rule := Rule(3.0, 1.0, 0.0)

  datatype Phase = Phase(matches: seq<CountedMatch>, members: set<Entry>)

  /** What a strategy compares: higher is better. Head to head reads the matches inside the tied subset. */
  function StrategyValue(p: Phase, strategy: Strategy, subset: set<Entry>, x: Entry): real {
    match strategy
    case Points => Cell(p.matches, p.members, LEGACY_RULE, x, TablePoints)
    case GoalDifference =>
      Cell(p.matches, p.members, LEGACY_RULE, x, ScoreFor) - Cell(p.matches, p.members, LEGACY_RULE, x, ScoreAgainst)
    case GoalsFor => Cell(p.matches, p.members, LEGACY_RULE, x, ScoreFor)
    case HeadToHead => Cell(p.matches, subset, LEGACY_RULE, x, TablePoints)
    case Unknown => 0.0
  }

  function Named(p: Phase, strategy: Strategy): Comparison {
    (subset: set<Entry>, a: Entry, b: Entry) => StrategyValue(p, strategy, subset, b) - StrategyValue(p, strategy, subset, a)
  }

  function Chain(p: Phase, strategies: seq<Strategy>): seq<Comparison> {
    seq(|strategies|, k requires 0 <= k < |strategies| => Named(p, strategies[k]))
  }

  /** A strategy puts a over b: more points, goal difference or goals, or more points among the tied alone. */
  predicate Prefers(p: Phase, strategy: Strategy, subset: set<Entry>, a: Entry, b: Entry) {
    match strategy
    case Points =>
      Cell(p.matches, p.members, LEGACY_RULE, a, TablePoints) > Cell(p.matches, p.members, LEGACY_RULE, b, TablePoints)
    case GoalDifference =>
      Cell(p.matches, p.members, LEGACY_RULE, a, ScoreFor) + Cell(p.matches, p.members, LEGACY_RULE, b, ScoreAgainst) >
      Cell(p.matches, p.members, LEGACY_RULE, b, ScoreFor) + Cell(p.matches, p.members, LEGACY_RULE, a, ScoreAgainst)
    case GoalsFor =>
      Cell(p.matches, p.members, LEGACY_RULE, a, ScoreFor) > Cell(p.matches, p.members, LEGACY_RULE, b, ScoreFor)
    case HeadToHead =>
      Cell(p.matches, subset, LEGACY_RULE, a, TablePoints) > Cell(p.matches, subset, LEGACY_RULE, b, TablePoints)
    case Unknown => false
  }

  lemma {:induction false} NamedPrefers(p: Phase, strategy: Strategy, subset: set<Entry>, a: Entry, b: Entry)
    ensures Named(p, strategy)(subset, a, b) < 0.0 <==> Prefers(p, strategy, subset, a, b)
    ensures Named(p, strategy)(subset, a, b) > 0.0 <==> Prefers(p, strategy, subset, b, a)
  {
  }

  /** Whatever strategies are named, the sort is given tiebreakers it can rely on. */
  lemma {:induction false} ChainCoherent(p: Phase, strategies: seq<Strategy>, teams: set<Entry>)
    ensures Coherent(Chain(p, strategies), teams)
  {
    forall k | 0 <= k < |strategies| ensures Everywhere(Chain(p, strategies)[k], teams) {
      forall subset: set<Entry> | subset <= teams ensures Preorder(Chain(p, strategies)[k], subset) {
        assert Chain(p, strategies)[k] == Named(p, strategies[k]);
      }
    }
  }

  /** The mini-table of the subset, filled match by match, then compared. */
  method CompareHeadToHead(p: Phase, subset: set<Entry>, a: Entry, b: Entry) returns (r: real)
    ensures r == Named(p, HeadToHead)(subset, a, b)
  {
    var points: map<Entry, real> := map x | x in subset :: 0.0;
    for i := 0 to |p.matches|
      invariant points.Keys == subset
      invariant forall x | x in subset :: points[x] == Cell(p.matches[..i], subset, LEGACY_RULE, x, TablePoints)
    {
      var m := p.matches[i];
      assert p.matches[..i + 1][..i] == p.matches[..i];
      if Counts(m, subset) {
        var home, away := m.entryA.value, m.entryB.value;
        if m.winner == m.entryA {
          points := points[home := points[home] + 3.0];
        } else if m.winner == m.entryB {
          points := points[away := points[away] + 3.0];
        } else {
          points := points[home := points[home] + 1.0];
          points := points[away := points[away] + 1.0];
        }
      }
    }
    assert p.matches[..|p.matches|] == p.matches;
    OutsiderHasNothing(p.matches, subset, a);
    OutsiderHasNothing(p.matches, subset, b);
    r := (if b in points then points[b] else 0.0) - (if a in points then points[a] else 0.0);
  }

  lemma {:induction false} OutsiderHasNothing(matches: seq<CountedMatch>, subset: set<Entry>, x: Entry)
    ensures x !in subset ==> Cell(matches, subset, LEGACY_RULE, x, TablePoints) == 0.0
  {
    if matches != [] {
      OutsiderHasNothing(matches[..|matches| - 1], subset, x);
    }
  }
}
