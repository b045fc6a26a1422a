/** The ranking of a group: blocks of tied entries, split by one criterion after another. */
module Ranking {
  import opened Entries
  import NatSets
  import opened Sorting
  import opened Standings

  /** `Points` always comes first; the regulation lists the others. `Lot` settles a tie by id. */
  datatype Criterion = Points | HeadToHead | Wins | Balance | Scored | Conceded | FairPlay | Lot

  datatype Group = Group(matches: seq<CountedMatch>, members: set<Entry>, rule: Rule)

  /** Higher is better. Head to head reads only the matches inside the block. */
  function Value(g: Group, criterion: Criterion, block: set<Entry>, x: Entry): real {
    match criterion
    case Points => Cell(g.matches, g.members, g.rule, x, TablePoints)
    case HeadToHead =>
      Cell(g.matches, block, g.rule, x, TablePoints) * 1000.0 +
      Cell(g.matches, block, g.rule, x, ScoreFor) - Cell(g.matches, block, g.rule, x, ScoreAgainst)
    case Wins => Cell(g.matches, g.members, g.rule, x, Won)
    case Balance => Cell(g.matches, g.members, g.rule, x, ScoreFor) - Cell(g.matches, g.members, g.rule, x, ScoreAgainst)
    case Scored => Cell(g.matches, g.members, g.rule, x, ScoreFor)
    case Conceded => -Cell(g.matches, g.members, g.rule, x, ScoreAgainst)
    case FairPlay => -Cell(g.matches, g.members, g.rule, x, Disciplinary)
    case Lot => 0.0
  }

  type Values = map<Entry, real>

  function ValuesOf(g: Group, criterion: Criterion, block: set<Entry>): (values: Values)
    ensures values.Keys == block
  {
    map x | x in block :: Value(g, criterion, block, x)
  }

  predicate Valued(s: seq<Entry>, values: Values) {
    forall x | x in s :: x in values
  }

  function Highest(s: seq<Entry>, values: Values): (v: real)
    requires s != [] && Valued(s, values)
    ensures exists x :: x in s && values[x] == v
    ensures forall x | x in s :: values[x] <= v
  {
    var last := values[s[|s| - 1]];
    if |s| == 1 then last
    else
      var before := s[..|s| - 1];
      assert s == before + [s[|s| - 1]];
      var highest := Highest(before, values);
      if last > highest then last else highest
  }

  /** The entries whose value is v, or with `tied` false the others, in their order. */
  function Pick(s: seq<Entry>, values: Values, v: real, tied: bool): (r: seq<Entry>)
    requires Valued(s, values)
    ensures forall x :: x in r <==> x in s && (values[x] == v) == tied
    ensures Distinct(s) ==> Distinct(r)
    ensures |r| <= |s|
  {
    if s == [] then []
    else
      var before, last := s[..|s| - 1], s[|s| - 1];
      assert s == before + [last];
      var picked := Pick(before, values, v, tied);
      if (values[last] == v) == tied then picked + [last] else picked
  }

  /** Removing the entries with a value that occurs leaves fewer. */
  lemma {:induction false} PickDrops(s: seq<Entry>, values: Values, v: real)
    requires Valued(s, values) && exists x :: x in s && values[x] == v
    ensures |Pick(s, values, v, false)| < |s|
  {
    var before, last := s[..|s| - 1], s[|s| - 1];
    assert s == before + [last];
    if values[last] != v {
      PickDrops(before, values, v);
    }
  }

  // ----- Blocks and buckets -----

  /** Splits a tied block by the next criterion; the lot, or the end of the list, orders by id. */
  function RankBlock(g: Group, block: seq<Entry>, criteria: seq<Criterion>): (r: seq<Entry>)
    decreases |criteria|, 0
  {
    if |block| <= 1 then block
    else if criteria == [] || criteria[0].Lot? then NatSets.Sorted(Members(block))
    else RankBuckets(g, block, ValuesOf(g, criteria[0], Members(block)), criteria[1..])
  }

  /** The highest value first; entries with the same value go on to the remaining criteria. */
  function RankBuckets(g: Group, s: seq<Entry>, values: Values, remaining: seq<Criterion>): (r: seq<Entry>)
    requires Valued(s, values)
    decreases |remaining|, |s| + 1
  {
    if s == [] then []
    else
      var v := Highest(s, values);
      PickDrops(s, values, v);
      RankBlock(g, Pick(s, values, v, true), remaining) + RankBuckets(g, Pick(s, values, v, false), values, remaining)
  }

  /** The order of a group: table points first, then the regulation's tiebreakers. */
  function Ranked(g: Group, entries: seq<Entry>, tiebreakers: seq<Criterion>): (r: seq<Entry>)
  {
    RankBuckets(g, entries, ValuesOf(g, Points, Members(entries)), tiebreakers)
  }

  // ----- Every entry is ranked once -----

  lemma {:induction false} JoinPicked(first: seq<Entry>, second: seq<Entry>, s: seq<Entry>, values: Values, v: real)
    requires Distinct(s) && Valued(s, values)
    requires Distinct(first) && SameEntries(first, Pick(s, values, v, true))
    requires Distinct(second) && SameEntries(second, Pick(s, values, v, false))
    ensures Distinct(first + second) && SameEntries(first + second, s)
  {
    forall x ensures x in first + second <==> x in s {
      assert x in first <==> x in Pick(s, values, v, true);
      assert x in second <==> x in Pick(s, values, v, false);
    }
    forall i, j | 0 <= i < |first| && 0 <= j < |second| ensures first[i] != second[j] {
      assert first[i] in Pick(s, values, v, true);
      assert second[j] in Pick(s, values, v, false);
    }
  }

  lemma {:induction false} BlockKeepsEntries(g: Group, block: seq<Entry>, criteria: seq<Criterion>)
    requires Distinct(block)
    ensures Distinct(RankBlock(g, block, criteria)) && SameEntries(RankBlock(g, block, criteria), block)
    decreases |criteria|, 0
  {
    if |block| > 1 && criteria != [] && !criteria[0].Lot? {
      BucketsKeepEntries(g, block, ValuesOf(g, criteria[0], Members(block)), criteria[1..]);
    }
  }

  lemma {:induction false} BucketsKeepEntries(g: Group, s: seq<Entry>, values: Values, remaining: seq<Criterion>)
    requires Distinct(s) && Valued(s, values)
    ensures Distinct(RankBuckets(g, s, values, remaining)) && SameEntries(RankBuckets(g, s, values, remaining), s)
    decreases |remaining|, |s| + 1
  {
    if s != [] {
      var v := Highest(s, values);
      PickDrops(s, values, v);
      var tied, others := Pick(s, values, v, true), Pick(s, values, v, false);
      BlockKeepsEntries(g, tied, remaining);
      BucketsKeepEntries(g, others, values, remaining);
      JoinPicked(RankBlock(g, tied, remaining), RankBuckets(g, others, values, remaining), s, values, v);
    }
  }

  /** The ranking lists exactly the entries, each once. */
  lemma {:induction false} RankedKeepsEntries(g: Group, entries: seq<Entry>, tiebreakers: seq<Criterion>)
    requires Distinct(entries)
    ensures Distinct(Ranked(g, entries, tiebreakers)) && SameEntries(Ranked(g, entries, tiebreakers), entries)
  {
    BucketsKeepEntries(g, entries, ValuesOf(g, Points, Members(entries)), tiebreakers);
  }

  // ----- What the order means -----

  function TiedWith(g: Group, criterion: Criterion, block: set<Entry>, x: Entry): set<Entry> {
    set z | z in block && Value(g, criterion, block, z) == Value(g, criterion, block, x)
  }

  /** The first criterion that separates x and y, read within the block still tied at that criterion, favours x. */
  predicate Precedes(g: Group, block: set<Entry>, criteria: seq<Criterion>, x: Entry, y: Entry) {
    if criteria == [] || criteria[0].Lot? then x < y
    else
      var vx, vy := Value(g, criteria[0], block, x), Value(g, criteria[0], block, y);
      vx > vy || (vx == vy && Precedes(g, TiedWith(g, criteria[0], block, x), criteria[1..], x, y))
  }

  predicate OrderedBy(g: Group, block: set<Entry>, criteria: seq<Criterion>, r: seq<Entry>) {
    forall i, j | 0 <= i < j < |r| :: Precedes(g, block, criteria, r[i], r[j])
  }

  lemma {:induction false} PrecedesAsymmetric(g: Group, block: set<Entry>, criteria: seq<Criterion>, x: Entry, y: Entry)
    requires Precedes(g, block, criteria, x, y)
    ensures !Precedes(g, block, criteria, y, x)
    decreases |criteria|
  {
    if criteria != [] && !criteria[0].Lot? && Value(g, criteria[0], block, x) == Value(g, criteria[0], block, y) {
      assert TiedWith(g, criteria[0], block, x) == TiedWith(g, criteria[0], block, y);
      PrecedesAsymmetric(g, TiedWith(g, criteria[0], block, x), criteria[1..], x, y);
    }
  }

  lemma {:induction false} BlockOrdered(g: Group, block: seq<Entry>, criteria: seq<Criterion>)
    requires Distinct(block)
    ensures OrderedBy(g, Members(block), criteria, RankBlock(g, block, criteria))
    decreases |criteria|, 0
  {
    if |block| > 1 && criteria != [] && !criteria[0].Lot? {
      BucketsOrdered(g, block, Members(block), criteria);
    }
  }

  /** What is left of the block has values below everything already taken. */
  ghost predicate Remainder(s: seq<Entry>, values: Values) {
    Valued(s, values) && forall z, x | z in values && z !in s && x in s :: values[z] > values[x]
  }

  lemma {:induction false} JoinOrdered(
      g: Group, block: set<Entry>, criteria: seq<Criterion>, first: seq<Entry>, second: seq<Entry>,
      tied: seq<Entry>, v: real)
    requires criteria != [] && !criteria[0].Lot?
    requires forall x :: x in tied <==> x in block && Value(g, criteria[0], block, x) == v
    requires SameEntries(first, tied) && OrderedBy(g, Members(tied), criteria[1..], first)
    requires OrderedBy(g, block, criteria, second)
    requires forall y | y in second :: Value(g, criteria[0], block, y) < v
    ensures OrderedBy(g, block, criteria, first + second)
  {
    forall i, j | 0 <= i < j < |first + second|
      ensures Precedes(g, block, criteria, (first + second)[i], (first + second)[j])
    {
      var x, y := (first + second)[i], (first + second)[j];
      if i < |first| {
        assert x in first && x in tied;
        if j < |first| {
          assert y in first && y in tied;
          assert Members(tied) == TiedWith(g, criteria[0], block, x);
          assert Precedes(g, Members(tied), criteria[1..], first[i], first[j]);
        } else {
          assert y in second;
        }
      } else {
        assert x == second[i - |first|] && y == second[j - |first|];
      }
    }
  }

  lemma {:induction false} BucketsOrdered(g: Group, s: seq<Entry>, block: set<Entry>, criteria: seq<Criterion>)
    requires Distinct(s) && criteria != [] && !criteria[0].Lot?
    requires Remainder(s, ValuesOf(g, criteria[0], block))
    ensures OrderedBy(g, block, criteria, RankBuckets(g, s, ValuesOf(g, criteria[0], block), criteria[1..]))
    decreases |criteria[1..]|, |s| + 1
  {
    if s != [] {
      var values := ValuesOf(g, criteria[0], block);
      var v := Highest(s, values);
      PickDrops(s, values, v);
      var tied, others := Pick(s, values, v, true), Pick(s, values, v, false);
      BucketsOrdered(g, others, block, criteria);
      BlockOrdered(g, tied, criteria[1..]);
      BlockKeepsEntries(g, tied, criteria[1..]);
      BucketsKeepEntries(g, others, values, criteria[1..]);
      JoinOrdered(g, block, criteria, RankBlock(g, tied, criteria[1..]), RankBuckets(g, others, values, criteria[1..]), tied, v);
    }
  }

  /** The order of a group is the one order its criteria give, with table points first. */
  lemma {:induction false} RankedByCriteria(g: Group, entries: seq<Entry>, tiebreakers: seq<Criterion>)
    requires Distinct(entries)
    ensures OrderedBy(g, Members(entries), [Points] + tiebreakers, Ranked(g, entries, tiebreakers))
  {
    assert ([Points] + tiebreakers)[1..] == tiebreakers;
    BucketsOrdered(g, entries, Members(entries), [Points] + tiebreakers);
  }

  // ----- The order of the input does not matter -----

  function OrderOf(g: Group, block: set<Entry>, criteria: seq<Criterion>): (Entry, Entry) -> bool {
    (x: Entry, y: Entry) => Precedes(g, block, criteria, x, y)
  }

  lemma {:induction false} ValueOfPermutation(g: Group, g': Group, criterion: Criterion, block: set<Entry>, x: Entry)
    requires g' == g.(matches := g'.matches) && multiset(g.matches) == multiset(g'.matches)
    ensures Value(g, criterion, block, x) == Value(g', criterion, block, x)
  {
    var members := if criterion.HeadToHead? then block else g.members;
    forall c: Column ensures Cell(g.matches, members, g.rule, x, c) == Cell(g'.matches, members, g.rule, x, c) {
      CellOfPermutation(g.matches, g'.matches, members, g.rule, x, c);
    }
  }

  lemma {:induction false} PrecedesOfPermutation(
      g: Group, g': Group, block: set<Entry>, criteria: seq<Criterion>, x: Entry, y: Entry)
    requires g' == g.(matches := g'.matches) && multiset(g.matches) == multiset(g'.matches)
    ensures Precedes(g, block, criteria, x, y) == Precedes(g', block, criteria, x, y)
    decreases |criteria|
  {
    if criteria != [] && !criteria[0].Lot? {
      forall z ensures Value(g, criteria[0], block, z) == Value(g', criteria[0], block, z) {
        ValueOfPermutation(g, g', criteria[0], block, z);
      }
      assert TiedWith(g, criteria[0], block, x) == TiedWith(g', criteria[0], block, x);
      PrecedesOfPermutation(g, g', TiedWith(g, criteria[0], block, x), criteria[1..], x, y);
    }
  }

  /** Neither the order of the entries nor that of the matches changes the ranking. */
  lemma {:induction false} RankingIgnoresInputOrder(
      g: Group, g': Group, entries: seq<Entry>, entries': seq<Entry>, tiebreakers: seq<Criterion>)
    requires Distinct(entries) && Distinct(entries') && Members(entries) == Members(entries')
    requires g' == g.(matches := g'.matches) && multiset(g.matches) == multiset(g'.matches)
    ensures Ranked(g, entries, tiebreakers) == Ranked(g', entries', tiebreakers)
  {
    var r, r' := Ranked(g, entries, tiebreakers), Ranked(g', entries', tiebreakers);
    var block, criteria := Members(entries), [Points] + tiebreakers;
    RankedByCriteria(g, entries, tiebreakers);
    RankedByCriteria(g', entries', tiebreakers);
    RankedKeepsEntries(g, entries, tiebreakers);
    RankedKeepsEntries(g', entries', tiebreakers);
    forall i, j | 0 <= i < j < |r'| ensures Precedes(g, block, criteria, r'[i], r'[j]) {
      PrecedesOfPermutation(g, g', block, criteria, r'[i], r'[j]);
    }
    forall x ensures x in r <==> x in r' {
      assert x in r <==> x in Members(entries);
      assert x in r' <==> x in Members(entries');
    }
    var before := OrderOf(g, block, criteria);
    forall x, y: Entry | before(x, y) ensures !before(y, x) {
      PrecedesAsymmetric(g, block, criteria, x, y);
    }
    ArrangedUnique(before, r, r');
  }

  // ----- Read without the recursion -----

  /** How many criteria come before the lot or the end of the list. */
  function ChainLength(criteria: seq<Criterion>): (n: nat)
    ensures n <= |criteria|
  {
    if criteria == [] || criteria[0].Lot? then 0 else 1 + ChainLength(criteria[1..])
  }

  /** The entries still tied with x after the first k criteria. */
  function BlockAt(g: Group, block: set<Entry>, criteria: seq<Criterion>, k: nat, x: Entry): (tied: set<Entry>)
    requires k <= |criteria|
    ensures tied <= block
  {
    if k == 0 then block else BlockAt(g, TiedWith(g, criteria[0], block, x), criteria[1..], k - 1, x)
  }

  /** x and y are tied up to criterion k, which puts x ahead; after the last criterion the lower id is ahead. */
  predicate Separates(g: Group, block: set<Entry>, criteria: seq<Criterion>, k: nat, x: Entry, y: Entry)
    requires k <= ChainLength(criteria)
  {
    var tied := BlockAt(g, block, criteria, k, x);
    y in tied &&
    if k == ChainLength(criteria) then x < y
    else Value(g, criteria[k], tied, x) > Value(g, criteria[k], tied, y)
  }

  lemma {:induction false} FirstSeparatingCriterion(
      g: Group, block: set<Entry>, criteria: seq<Criterion>, x: Entry, y: Entry)
    requires x in block && y in block
    ensures Precedes(g, block, criteria, x, y) <==>
            exists k: nat :: k <= ChainLength(criteria) && Separates(g, block, criteria, k, x, y)
    decreases |criteria|
  {
    var n := ChainLength(criteria);
    if n == 0 {
      assert Precedes(g, block, criteria, x, y) ==> Separates(g, block, criteria, 0, x, y);
    } else {
      var tied := TiedWith(g, criteria[0], block, x);
      forall k: nat | k < n && y in tied
        ensures Separates(g, block, criteria, k + 1, x, y) == Separates(g, tied, criteria[1..], k, x, y)
      {
      }
      assert Separates(g, block, criteria, 0, x, y) <==>
             Value(g, criteria[0], block, x) > Value(g, criteria[0], block, y);
      if y in tied {
        FirstSeparatingCriterion(g, tied, criteria[1..], x, y);
        if k: nat :| k <= n && Separates(g, block, criteria, k, x, y) {
          assert Separates(g, tied, criteria[1..], k - 1, x, y);
        }
        if k: nat :| k <= n - 1 && Separates(g, tied, criteria[1..], k, x, y) {
          assert Separates(g, block, criteria, k + 1, x, y);
        }
      } else {
        forall k: nat | k <= n && Separates(g, block, criteria, k, x, y)
          ensures k == 0
        {
        }
      }
    }
  }

  // ----- What the criteria prefer -----

  /** The criterion puts x over y: more points, wins, balance or score, fewer conceded or disciplinary points. */
  predicate LeadsBy(g: Group, c: Criterion, block: set<Entry>, x: Entry, y: Entry) {
    match c
    case Points => CellIn(g, x, TablePoints) > CellIn(g, y, TablePoints)
    case Wins => CellIn(g, x, Won) > CellIn(g, y, Won)
    case Balance => CellIn(g, x, ScoreFor) - CellIn(g, x, ScoreAgainst) > CellIn(g, y, ScoreFor) - CellIn(g, y, ScoreAgainst)
    case Scored => CellIn(g, x, ScoreFor) > CellIn(g, y, ScoreFor)
    case Conceded => CellIn(g, x, ScoreAgainst) < CellIn(g, y, ScoreAgainst)
    case FairPlay => CellIn(g, x, Disciplinary) < CellIn(g, y, Disciplinary)
    case HeadToHead =>
      var mini := g.(members := block);
      1000.0 * (CellIn(mini, x, TablePoints) - CellIn(mini, y, TablePoints)) >
      (CellIn(mini, y, ScoreFor) - CellIn(mini, y, ScoreAgainst)) - (CellIn(mini, x, ScoreFor) - CellIn(mini, x, ScoreAgainst))
    case Lot => false
  }

  function CellIn(g: Group, x: Entry, c: Column): real {
    Cell(g.matches, g.members, g.rule, x, c)
  }

  lemma {:induction false} HigherValueLeads(g: Group, c: Criterion, block: set<Entry>, x: Entry, y: Entry)
    ensures Value(g, c, block, x) > Value(g, c, block, y) <==> LeadsBy(g, c, block, x, y)
  {
  }

  /** More table points come first; at equal points nobody comes after an entry the first tiebreaker puts it over. */
  lemma {:induction false} FirstTiebreakerDecides(
      g: Group, entries: seq<Entry>, c: Criterion, rest: seq<Criterion>, i: nat, j: nat)
    requires Distinct(entries) && i < j < |Ranked(g, entries, [c] + rest)|
    ensures
      var r := Ranked(g, entries, [c] + rest);
      var level := set z | z in entries && CellIn(g, z, TablePoints) == CellIn(g, r[i], TablePoints);
      && !(CellIn(g, r[j], TablePoints) > CellIn(g, r[i], TablePoints))
      && (CellIn(g, r[i], TablePoints) == CellIn(g, r[j], TablePoints) ==>
            if c.Lot? then r[i] < r[j] else !LeadsBy(g, c, level, r[j], r[i]))
  {
    var r := Ranked(g, entries, [c] + rest);
    RankedByCriteria(g, entries, [c] + rest);
    FirstTwoCriteria(g, Members(entries), c, rest, r[i], r[j]);
    assert Precedes(g, Members(entries), [Points] + ([c] + rest), r[i], r[j]);
    var level := set z | z in entries && CellIn(g, z, TablePoints) == CellIn(g, r[i], TablePoints);
    assert TiedWith(g, Points, Members(entries), r[i]) == level;
  }

  lemma {:induction false} FirstTwoCriteria(
      g: Group, block: set<Entry>, c: Criterion, rest: seq<Criterion>, x: Entry, y: Entry)
    ensures Precedes(g, block, [Points] + ([c] + rest), x, y) ==>
      && !LeadsBy(g, Points, block, y, x)
      && (!LeadsBy(g, Points, block, x, y) ==>
            if c.Lot? then x < y else !LeadsBy(g, c, TiedWith(g, Points, block, x), y, x))
  {
    var criteria, tied := [Points] + ([c] + rest), TiedWith(g, Points, block, x);
    assert criteria[0] == Points && criteria[1..] == [c] + rest && ([c] + rest)[0] == c;
    HigherValueLeads(g, Points, block, x, y);
    HigherValueLeads(g, Points, block, y, x);
    HigherValueLeads(g, c, tied, y, x);
    if Precedes(g, block, criteria, x, y) && !LeadsBy(g, Points, block, x, y) {
      assert Precedes(g, tied, [c] + rest, x, y);
    }
  }

  lemma {:induction false} PointsNeverRise(
      g: Group, block: set<Entry>, tiebreakers: seq<Criterion>, r: seq<Entry>, i: nat, j: nat)
    requires OrderedBy(g, block, [Points] + tiebreakers, r) && i < j < |r|
    ensures
      Cell(g.matches, g.members, g.rule, r[i], TablePoints) >= Cell(g.matches, g.members, g.rule, r[j], TablePoints)
  {
    assert Precedes(g, block, [Points] + tiebreakers, r[i], r[j]);
  }

  /** Whatever the tiebreakers, more table points rank higher. */
  lemma {:induction false} MorePointsRankHigher(
      g: Group, entries: seq<Entry>, tiebreakers: seq<Criterion>, i: nat, j: nat)
    requires Distinct(entries) && i < |Ranked(g, entries, tiebreakers)| && j < |Ranked(g, entries, tiebreakers)|
    requires
      var r := Ranked(g, entries, tiebreakers);
      Cell(g.matches, g.members, g.rule, r[i], TablePoints) > Cell(g.matches, g.members, g.rule, r[j], TablePoints)
    ensures i < j
  {
    RankedByCriteria(g, entries, tiebreakers);
    MorePointsComeFirst(g, Members(entries), tiebreakers, Ranked(g, entries, tiebreakers), i, j);
  }

  lemma {:induction false} MorePointsComeFirst(
      g: Group, block: set<Entry>, tiebreakers: seq<Criterion>, r: seq<Entry>, i: nat, j: nat)
    requires OrderedBy(g, block, [Points] + tiebreakers, r) && i < |r| && j < |r|
    requires
      Cell(g.matches, g.members, g.rule, r[i], TablePoints) > Cell(g.matches, g.members, g.rule, r[j], TablePoints)
    ensures i < j
  {
    if j < i {
      PointsNeverRise(g, block, tiebreakers, r, j, i);
    }
  }
}
