/** The loops that build a group's table and its ranking. */
module GroupTable {
  import opened Entries
  import NatSets
  import opened Standings
  import opened Ranking

  /** A criterion read off the rows the loops keep: the group's row and the row of the block's own table. */
  function CriterionValue(criterion: Criterion, row: Row, mini: Row): real
    requires FullRow(row) && FullRow(mini)
  {
    match criterion
    case Points => row[TablePoints]
    case HeadToHead => mini[TablePoints] * 1000.0 + mini[ScoreFor] - mini[ScoreAgainst]
    case Wins => row[Won]
    case Balance => row[ScoreFor] - row[ScoreAgainst]
    case Scored => row[ScoreFor]
    case Conceded => -row[ScoreAgainst]
    case FairPlay => -row[Disciplinary]
    case Lot => 0.0
  }

  /** The rows hold what the matches add up to. */
  ghost predicate TableOf(rows: Table, matches: seq<CountedMatch>, members: set<Entry>, rule: Rule) {
    FullTable(rows, members) && forall x, c: Column | x in rows :: rows[x][c] == Cell(matches, members, rule, x, c)
  }

  // ----- The matches inside a block -----

  function Inside(matches: seq<CountedMatch>, block: set<Entry>): seq<CountedMatch> {
    if matches == [] then []
    else
      var n := |matches| - 1;
      Inside(matches[..n], block) + if Counts(matches[n], block) then [matches[n]] else []
  }

  lemma {:induction false} CellInside(matches: seq<CountedMatch>, block: set<Entry>, rule: Rule, x: Entry, c: Column)
    ensures Cell(Inside(matches, block), block, rule, x, c) == Cell(matches, block, rule, x, c)
  {
    if matches != [] {
      var n := |matches| - 1;
      CellInside(matches[..n], block, rule, x, c);
      assert Inside(matches, block) ==
             Inside(matches[..n], block) + if Counts(matches[n], block) then [matches[n]] else [];
      if Counts(matches[n], block) {
        CellOfConcat(Inside(matches[..n], block), [matches[n]], block, rule, x, c);
        CellOfOne(matches[n], block, rule, x, c);
      } else {
        assert Inside(matches, block) == Inside(matches[..n], block);
      }
    }
  }

  method MatchesInside(matches: seq<CountedMatch>, block: set<Entry>) returns (inside: seq<CountedMatch>)
    ensures inside == Inside(matches, block)
  {
    inside := [];
    for i := 0 to |matches|
      invariant inside == Inside(matches[..i], block)
    {
      assert matches[..i + 1][..i] == matches[..i];
      if Counts(matches[i], block) {
        inside := inside + [matches[i]];
      }
    }
    assert matches[..|matches|] == matches;
  }

  /** The table of the block's own matches, which only head to head looks at. */
  method MiniTable(g: Group, block: seq<Entry>, criterion: Criterion) returns (mini: Table)
    ensures FullTable(mini, Members(block))
    ensures criterion.HeadToHead? ==> TableOf(mini, g.matches, Members(block), g.rule)
  {
    var members := Members(block);
    EmptyRowFull();
    mini := map x | x in members :: EMPTY_ROW;
    if criterion.HeadToHead? {
      var inside := MatchesInside(g.matches, members);
      mini := Accumulate(block, inside, g.rule);
      forall x, c: Column | x in members ensures mini[x][c] == Cell(g.matches, members, g.rule, x, c) {
        CellInside(g.matches, members, g.rule, x, c);
      }
    }
  }

  lemma {:induction false} CriterionRead(
      g: Group, criterion: Criterion, block: set<Entry>, stats: Table, mini: Table, x: Entry)
    requires TableOf(stats, g.matches, g.members, g.rule) && x in stats
    requires FullTable(mini, block) && x in mini
    requires criterion.HeadToHead? ==> TableOf(mini, g.matches, block, g.rule)
    ensures CriterionValue(criterion, stats[x], mini[x]) == Value(g, criterion, block, x)
  {
  }

  method ValuesLoop(g: Group, block: seq<Entry>, stats: Table, criterion: Criterion) returns (values: Values)
    requires TableOf(stats, g.matches, g.members, g.rule) && Members(block) <= g.members
    ensures values == ValuesOf(g, criterion, Members(block))
  {
    var members := Members(block);
    var mini := MiniTable(g, block, criterion);
    values := map[];
    for i := 0 to |block|
      invariant values.Keys == Members(block[..i])
      invariant forall x | x in values :: values[x] == Value(g, criterion, members, x)
    {
      assert block[i] in members && block[..i + 1] == block[..i] + [block[i]];
      CriterionRead(g, criterion, members, stats, mini, block[i]);
      values := values[block[i] := CriterionValue(criterion, stats[block[i]], mini[block[i]])];
    }
    assert block[..|block|] == block;
  }

  // ----- Buckets -----

  type Buckets = map<real, seq<Entry>>

  ghost predicate NoKeyRepeats(keys: seq<real>) {
    forall i, j | 0 <= i < j < |keys| :: keys[i] != keys[j]
  }

  /** One bucket per value that occurs, each holding its entries in order; the keys in the order they came up. */
  ghost predicate BucketsOf(keys: seq<real>, buckets: Buckets, s: seq<Entry>, values: Values) {
    Valued(s, values) && NoKeyRepeats(keys) &&
    (forall v | v in keys :: v in buckets && buckets[v] != [] && buckets[v] == Pick(s, values, v, true)) &&
    (forall x | x in s :: values[x] in keys)
  }

  lemma {:induction false} PickNone(s: seq<Entry>, values: Values, v: real)
    requires Valued(s, values) && forall x | x in s :: values[x] != v
    ensures Pick(s, values, v, true) == []
  {
    if s != [] {
      assert s[|s| - 1] in s;
      PickNone(s[..|s| - 1], values, v);
    }
  }

  lemma {:induction false} PickLast(s: seq<Entry>, i: nat, values: Values, v: real)
    requires i < |s| && Valued(s, values)
    ensures
      Pick(s[..i + 1], values, v, true) == Pick(s[..i], values, v, true) + if values[s[i]] == v then [s[i]] else []
  {
    assert s[..i + 1][..i] == s[..i];
  }

  lemma {:induction false} AddToBucket(keys: seq<real>, buckets: Buckets, s: seq<Entry>, i: nat, values: Values)
    requires i < |s| && Valued(s, values) && BucketsOf(keys, buckets, s[..i], values)
    requires values[s[i]] in keys && values[s[i]] in buckets
    ensures BucketsOf(keys, buckets[values[s[i]] := buckets[values[s[i]]] + [s[i]]], s[..i + 1], values)
  {
    assert s[..i + 1] == s[..i] + [s[i]];
    forall w | w in keys
      ensures Pick(s[..i + 1], values, w, true) == Pick(s[..i], values, w, true) + if values[s[i]] == w then [s[i]] else []
    {
      PickLast(s, i, values, w);
    }
  }

  lemma {:induction false} NewBucket(keys: seq<real>, buckets: Buckets, s: seq<Entry>, i: nat, values: Values)
    requires i < |s| && Valued(s, values) && BucketsOf(keys, buckets, s[..i], values) && values[s[i]] !in keys
    ensures BucketsOf(keys + [values[s[i]]], buckets[values[s[i]] := [s[i]]], s[..i + 1], values)
  {
    var v := values[s[i]];
    assert s[..i + 1] == s[..i] + [s[i]];
    PickNone(s[..i], values, v);
    forall w | w in keys + [v]
      ensures Pick(s[..i + 1], values, w, true) == Pick(s[..i], values, w, true) + if v == w then [s[i]] else []
    {
      PickLast(s, i, values, w);
    }
  }

  method Fill(s: seq<Entry>, values: Values) returns (keys: seq<real>, buckets: Buckets)
    requires Valued(s, values)
    ensures BucketsOf(keys, buckets, s, values)
  {
    keys, buckets := [], map[];
    for i := 0 to |s|
      invariant BucketsOf(keys, buckets, s[..i], values)
      invariant OneBucketPerKey(keys, buckets)
    {
      var v := values[s[i]];
      if v in buckets {
        AddToBucket(keys, buckets, s, i, values);
        buckets := buckets[v := buckets[v] + [s[i]]];
      } else {
        NewBucket(keys, buckets, s, i, values);
        keys := keys + [v];
        buckets := buckets[v := [s[i]]];
      }
    }
    assert s[..|s|] == s;
  }

  ghost predicate OneBucketPerKey(keys: seq<real>, buckets: Buckets) {
    forall v :: v in buckets <==> v in keys
  }

  method HighestKey(keys: seq<real>) returns (best: nat)
    requires keys != []
    ensures best < |keys| && forall v | v in keys :: v <= keys[best]
  {
    best := 0;
    for i := 1 to |keys|
      invariant best < |keys| && forall k | 0 <= k < i :: keys[k] <= keys[best]
    {
      if keys[i] > keys[best] { best := i; }
    }
  }

  lemma {:induction false} PickTwice(s: seq<Entry>, values: Values, v: real, w: real)
    requires Valued(s, values) && v != w
    ensures Pick(Pick(s, values, v, false), values, w, true) == Pick(s, values, w, true)
  {
    if s != [] {
      var before, last := s[..|s| - 1], s[|s| - 1];
      assert s == before + [last];
      PickTwice(before, values, v, w);
      var others := Pick(before, values, v, false);
      assert (others + [last])[..|others|] == others;
    }
  }

  lemma {:induction false} WithoutHighest(keys: seq<real>, buckets: Buckets, s: seq<Entry>, values: Values, best: nat)
    requires BucketsOf(keys, buckets, s, values) && best < |keys|
    ensures BucketsOf(keys[..best] + keys[best + 1..], buckets, Pick(s, values, keys[best], false), values)
  {
    var rest := keys[..best] + keys[best + 1..];
    forall w | w in keys && w != keys[best] ensures w in rest {
      var i :| 0 <= i < |keys| && keys[i] == w;
      assert rest[if i < best then i else i - 1] == w;
    }
    forall w | w in rest ensures buckets[w] == Pick(Pick(s, values, keys[best], false), values, w, true) {
      PickTwice(s, values, keys[best], w);
    }
  }

  lemma {:induction false} NextBucket(
      g: Group, keys: seq<real>, buckets: Buckets, s: seq<Entry>, values: Values, v: real,
      remaining: seq<Criterion>)
    requires BucketsOf(keys, buckets, s, values)
    requires v in keys && forall w | w in keys :: w <= v
    ensures
      RankBuckets(g, s, values, remaining) ==
      RankBlock(g, buckets[v], remaining) + RankBuckets(g, Pick(s, values, v, false), values, remaining)
  {
    assert buckets[v][0] in Pick(s, values, v, true);
    assert Highest(s, values) == v;
  }

  /** The loop's invariant: what is ranked, then what the buckets still to come give, is the whole ranking. */
  ghost predicate Merging(
      g: Group, r: seq<Entry>, keys: seq<real>, buckets: Buckets, others: seq<Entry>, values: Values,
      remaining: seq<Criterion>, whole: seq<Entry>)
  {
    BucketsOf(keys, buckets, others, values) && Members(others) <= g.members &&
    r + RankBuckets(g, others, values, remaining) == whole
  }

  lemma {:induction false} MergeAdvances(
      g: Group, r: seq<Entry>, keys: seq<real>, buckets: Buckets, others: seq<Entry>, values: Values,
      remaining: seq<Criterion>, whole: seq<Entry>, best: nat)
    requires Merging(g, r, keys, buckets, others, values, remaining, whole)
    requires best < |keys| && forall w | w in keys :: w <= keys[best]
    ensures keys[best] in buckets && Members(buckets[keys[best]]) <= g.members
    ensures Merging(g, r + RankBlock(g, buckets[keys[best]], remaining), keys[..best] + keys[best + 1..], buckets,
                    Pick(others, values, keys[best], false), values, remaining, whole)
  {
    NextBucket(g, keys, buckets, others, values, keys[best], remaining);
    WithoutHighest(keys, buckets, others, values, best);
  }

  method RankDescending(g: Group, s: seq<Entry>, values: Values, stats: Table, remaining: seq<Criterion>)
    returns (r: seq<Entry>)
    requires TableOf(stats, g.matches, g.members, g.rule) && Members(s) <= g.members && Valued(s, values)
    ensures r == RankBuckets(g, s, values, remaining)
    decreases |remaining|, 1
  {
    var keys, buckets := Fill(s, values);
    ghost var others, whole := s, RankBuckets(g, s, values, remaining);
    r := [];
    assert r + whole == whole;
    while keys != []
      invariant Merging(g, r, keys, buckets, others, values, remaining, whole)
      decreases |keys|
    {
      var best := HighestKey(keys);
      MergeAdvances(g, r, keys, buckets, others, values, remaining, whole, best);
      others := Pick(others, values, keys[best], false);
      var block := RankTied(g, buckets[keys[best]], stats, remaining);
      r := r + block;
      keys := keys[..best] + keys[best + 1..];
    }
  }

  method RankTied(g: Group, block: seq<Entry>, stats: Table, criteria: seq<Criterion>) returns (r: seq<Entry>)
    requires TableOf(stats, g.matches, g.members, g.rule) && Members(block) <= g.members
    ensures r == RankBlock(g, block, criteria)
    decreases |criteria|, 0
  {
    if |block| <= 1 {
      r := block;
    } else if criteria == [] || criteria[0].Lot? {
      r := NatSets.Sorted(Members(block));
    } else {
      var values := ValuesLoop(g, block, stats, criteria[0]);
      r := RankDescending(g, block, values, stats, criteria[1..]);
    }
  }

  // ----- The stored table -----

  datatype StandingRow = StandingRow(entry: Entry, row: Row, rank: nat)

  ghost predicate RankIn(order: seq<Entry>, x: Entry, rank: nat) {
    1 <= rank <= |order| && order[rank - 1] == x
  }

  ghost predicate RowOf(standing: StandingRow, g: Group, order: seq<Entry>, x: Entry) {
    standing.entry == x && FullRow(standing.row) && RankIn(order, x, standing.rank) &&
    forall c: Column :: standing.row[c] == Cell(g.matches, g.members, g.rule, x, c)
  }

  method NumberRanks(order: seq<Entry>) returns (ranks: map<Entry, nat>)
    ensures ranks.Keys == Members(order) && forall x | x in ranks :: RankIn(order, x, ranks[x])
  {
    ranks := map[];
    for i := 0 to |order|
      invariant ranks.Keys == Members(order[..i])
      invariant forall x | x in ranks :: RankIn(order, x, ranks[x])
    {
      assert order[..i + 1] == order[..i] + [order[i]];
      ranks := ranks[order[i] := i + 1];
    }
    assert order[..|order|] == order;
  }

  ghost predicate RowsOf(rows: seq<StandingRow>, g: Group, order: seq<Entry>, entries: seq<Entry>) {
    |rows| == |entries| && forall i | 0 <= i < |rows| :: RowOf(rows[i], g, order, entries[i])
  }

  method NumberedRows(g: Group, entries: seq<Entry>, stats: Table, order: seq<Entry>) returns (rows: seq<StandingRow>)
    requires TableOf(stats, g.matches, g.members, g.rule) && g.members == Members(entries)
    requires forall x | x in entries :: x in order
    ensures RowsOf(rows, g, order, entries)
  {
    var ranks := NumberRanks(order);
    rows := [];
    for i := 0 to |entries|
      invariant RowsOf(rows, g, order, entries[..i])
    {
      assert entries[i] in entries;
      rows := rows + [StandingRow(entries[i], stats[entries[i]], ranks[entries[i]])];
    }
    assert entries[..|entries|] == entries;
  }

  /** One row per entry in the given order: its sums over the matches, and its rank from 1 in the ranking. */
  method ComputeStandings(entries: seq<Entry>, matches: seq<CountedMatch>, rule: Rule, tiebreakers: seq<Criterion>)
    returns (rows: seq<StandingRow>)
    requires Distinct(entries)
    ensures
      var g := Group(matches, Members(entries), rule);
      RowsOf(rows, g, Ranked(g, entries, tiebreakers), entries) && |Ranked(g, entries, tiebreakers)| == |entries|
  {
    var g := Group(matches, Members(entries), rule);
    var stats := Accumulate(entries, matches, rule);
    var values := ValuesLoop(g, entries, stats, Points);
    var order := RankDescending(g, entries, values, stats, tiebreakers);
    RankedKeepsEntries(g, entries, tiebreakers);
    SameLength(order, entries);
    rows := NumberedRows(g, entries, stats, order);
  }
}
