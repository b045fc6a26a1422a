/** From stored tables to qualifiers: computed ranks are what the selection expects, and the league shortcut. */
module Classification {
  import opened Entries
  import NatSets
  import opened Sorting
  import opened Standings
  import opened Ranking
  import opened GroupTable
  import opened Qualification

  function StandingOf(row: StandingRow): Standing
    requires FullRow(row.row)
  {
    Standing(row.entry, row.rank, row.row[TablePoints], row.row[ScoreFor], row.row[ScoreAgainst])
  }

  ghost predicate Stored(rows: seq<StandingRow>, byEntry: map<Entry, Standing>) {
    forall i | 0 <= i < |rows| ::
      FullRow(rows[i].row) && rows[i].entry in byEntry && byEntry[rows[i].entry] == StandingOf(rows[i])
  }

  ghost predicate RankedIn(order: seq<Entry>, byEntry: map<Entry, Standing>, x: Entry) {
    x in byEntry && byEntry[x].entry == x && RankIn(order, x, byEntry[x].rank)
  }

  lemma {:induction false} RanksFollowOrder(order: seq<Entry>, entries: seq<Entry>, byEntry: map<Entry, Standing>)
    requires Distinct(entries) && SameEntries(order, entries) && |order| == |entries| && Distinct(order)
    requires forall x | x in entries :: RankedIn(order, byEntry, x)
    ensures RanksGroup(entries, byEntry)
  {
    assert forall x | x in entries :: RankedIn(order, byEntry, x) && x in byEntry;
    forall rank: nat | 1 <= rank <= |entries| ensures HoldsRank(entries, byEntry, rank) {
      var x := order[rank - 1];
      assert x in order && x in entries;
      assert RankedIn(order, byEntry, x);
      assert HasRank(byEntry, x, rank);
    }
    forall i, j | 0 <= i < j < |entries| ensures byEntry[entries[i]].rank != byEntry[entries[j]].rank {
      assert RankedIn(order, byEntry, entries[i]) && RankedIn(order, byEntry, entries[j]);
    }
    forall x | x in entries ensures x in byEntry && byEntry[x].entry == x && 1 <= byEntry[x].rank <= |entries| {
      assert RankedIn(order, byEntry, x);
    }
  }

  lemma {:induction false} StoredInOrder(
      rows: seq<StandingRow>, g: Group, order: seq<Entry>, entries: seq<Entry>, byEntry: map<Entry, Standing>,
      x: Entry)
    requires RowsOf(rows, g, order, entries) && Stored(rows, byEntry) && x in entries
    ensures RankedIn(order, byEntry, x)
  {
    var i :| 0 <= i < |entries| && entries[i] == x;
    assert RowOf(rows[i], g, order, x);
  }

  /** What ComputeStandings stores for a group ranks it without gaps or ties, so the selection's counts apply. */
  lemma {:induction false} ComputedRanksAreBijective(
      rows: seq<StandingRow>, g: Group, entries: seq<Entry>, tiebreakers: seq<Criterion>, byEntry: map<Entry, Standing>)
    requires Distinct(entries) && |Ranked(g, entries, tiebreakers)| == |entries|
    requires RowsOf(rows, g, Ranked(g, entries, tiebreakers), entries) && Stored(rows, byEntry)
    ensures RanksGroup(entries, byEntry)
  {
    var order := Ranked(g, entries, tiebreakers);
    RankedKeepsEntries(g, entries, tiebreakers);
    forall x | x in entries ensures RankedIn(order, byEntry, x) {
      StoredInOrder(rows, g, order, entries, byEntry, x);
    }
    RanksFollowOrder(order, entries, byEntry);
  }

  // ----- A league qualifies by its single table -----

  predicate RankedBefore(a: Standing, b: Standing) {
    a.rank < b.rank || (a.rank == b.rank && a.entry < b.entry)
  }

  function Within(standings: seq<Standing>, limit: nat): (kept: seq<Standing>)
    ensures forall s :: s in kept <==> s in standings && s.rank <= limit
  {
    if standings == [] then []
    else
      var last := standings[|standings| - 1];
      assert standings == standings[..|standings| - 1] + [last];
      Within(standings[..|standings| - 1], limit) + if last.rank <= limit then [last] else []
  }

  function LeagueOrder(standings: seq<Standing>, perGroup: nat): seq<Standing> {
    Sort(RankedBefore, Within(standings, perGroup))
  }

  ghost predicate RankPresent(standings: seq<Standing>, rank: nat) {
    exists s :: s in standings && s.rank == rank
  }

  /** A single table whose ranks are a bijection onto 1..n. */
  ghost predicate LeagueRanked(standings: seq<Standing>) {
    (forall i | 0 <= i < |standings| :: 1 <= standings[i].rank <= |standings|) &&
    DistinctRanks(standings) &&
    (forall rank: nat | 1 <= rank <= |standings| :: RankPresent(standings, rank))
  }

  predicate SameRank(a: Standing, b: Standing) {
    a.rank == b.rank
  }

  ghost predicate DistinctRanks(s: seq<Standing>) {
    Apart(SameRank, s)
  }

  lemma {:induction false} WithinDistinct(standings: seq<Standing>, limit: nat)
    requires DistinctRanks(standings)
    ensures DistinctRanks(Within(standings, limit))
  {
    if standings != [] {
      var n := |standings| - 1;
      WithinDistinct(standings[..n], limit);
      forall s | s in Within(standings[..n], limit) ensures s.rank != standings[n].rank {
        assert s in standings[..n];
      }
    }
  }

  lemma {:induction false} RankedBeforeStrictWeak()
    ensures StrictWeak(RankedBefore)
  {
  }

  /** The qualifiers of a league are ranks 1, 2, and so on, as many as qualify or as there are. */
  lemma {:induction false} LeagueQualifiesInOrder(standings: seq<Standing>, perGroup: nat)
    requires LeagueRanked(standings)
    ensures |LeagueOrder(standings, perGroup)| == Least(perGroup, |standings|)
    ensures forall i | 0 <= i < |LeagueOrder(standings, perGroup)| ::
      LeagueOrder(standings, perGroup)[i] in standings && LeagueOrder(standings, perGroup)[i].rank == i + 1
  {
    var kept := Within(standings, perGroup);
    var r := LeagueOrder(standings, perGroup);
    RankedBeforeStrictWeak();
    SortSorts(RankedBefore, kept);
    SortMembers(RankedBefore, kept);
    SortPermutes(RankedBefore, kept);
    WithinDistinct(standings, perGroup);
    PermutationApart(SameRank, kept, r);
    forall i, j | 0 <= i < j < |r| ensures r[i].rank < r[j].rank {
      assert !RankedBefore(r[j], r[i]);
    }
    RanksWithoutGaps(standings, perGroup, r);
  }

  lemma {:induction false} RanksWithoutGaps(standings: seq<Standing>, perGroup: nat, r: seq<Standing>)
    requires LeagueRanked(standings)
    requires forall s :: s in r <==> s in standings && s.rank <= perGroup
    requires forall i, j | 0 <= i < j < |r| :: r[i].rank < r[j].rank
    ensures |r| == Least(perGroup, |standings|)
    ensures forall i | 0 <= i < |r| :: r[i] in standings && r[i].rank == i + 1
  {
    var k := Least(perGroup, |standings|);
    var ranks := seq(|r|, i requires 0 <= i < |r| => r[i].rank);
    var wanted := seq(k, i => i + 1);
    forall n: nat ensures n in ranks <==> n in wanted {
      if n in ranks {
        var i :| 0 <= i < |ranks| && ranks[i] == n;
        assert r[i] in r && r[i] in standings;
        assert wanted[n - 1] == n;
      }
      if n in wanted {
        assert RankPresent(standings, n);
        var s :| s in standings && s.rank == n;
        assert s in r;
        var i :| 0 <= i < |r| && r[i] == s;
        assert ranks[i] == n;
      }
    }
    NatSets.AscendingUnique(ranks, wanted);
    forall i | 0 <= i < |r| ensures r[i] in standings && r[i].rank == i + 1 {
      assert r[i] in r;
      assert ranks[i] == wanted[i];
    }
  }
}
