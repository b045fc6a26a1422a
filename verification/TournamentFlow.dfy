/** From played groups to the first round: the entries that qualify are the ones that play, once each. */
module TournamentFlow {
  import opened Entries
  import opened Ranking
  import opened Qualification
  import opened Classification
  import opened Sorting
  import opened Seeding
  import opened KnockoutPhase
  import opened BracketInvariant
  import opened Tournament

  /** No entry is listed twice in a group or in two groups. */
  ghost predicate ProperGroups(phase: GroupPhase) {
    (forall i | 0 <= i < |phase.groups| :: Distinct(phase.groups[i].entries)) &&
    (forall i, j, x | 0 <= i < j < |phase.groups| && x in phase.groups[i].entries :: x !in phase.groups[j].entries)
  }

  function OrderIn(reg: Regulations, phase: GroupPhase, i: nat): seq<Entry>
    requires i < |phase.groups|
  {
    var group := phase.groups[i];
    Ranked(Group(CountedIn(phase, group), Members(group.entries), reg.rule), group.entries, reg.tiebreakers)
  }

  lemma {:induction false} OrderKeepsEntries(reg: Regulations, phase: GroupPhase, i: nat)
    requires i < |phase.groups| && Distinct(phase.groups[i].entries)
    ensures Distinct(OrderIn(reg, phase, i)) && SameEntries(OrderIn(reg, phase, i), phase.groups[i].entries)
  {
    var group := phase.groups[i];
    RankedKeepsEntries(Group(CountedIn(phase, group), Members(group.entries), reg.rule), group.entries, reg.tiebreakers);
  }

  lemma {:induction false} RowInOwnTable(g: Group, order: seq<Entry>, x: Entry)
    requires x in order
    ensures RankedIn(order, TableOfOrder(g, order), x)
  {
  }

  /** Later tables without the entry leave its row alone. */
  lemma {:induction false} RowAfterMerge(tables: seq<map<Entry, Standing>>, i: nat, x: Entry)
    requires i < |tables| && x in tables[i] && forall j | i < j < |tables| :: x !in tables[j]
    ensures x in Merged(tables) && Merged(tables)[x] == tables[i][x]
    decreases |tables|
  {
    var n := |tables| - 1;
    if i < n {
      RowAfterMerge(tables[..n], i, x);
    }
  }

  lemma {:induction false} TableKeys(reg: Regulations, phase: GroupPhase, i: nat)
    requires i < |phase.groups| && Distinct(phase.groups[i].entries)
    ensures GroupTableOf(reg, phase, phase.groups[i]).Keys == Members(phase.groups[i].entries)
  {
    OrderKeepsEntries(reg, phase, i);
    assert Members(OrderIn(reg, phase, i)) == Members(phase.groups[i].entries);
  }

  lemma {:induction false} RowOfOwnGroup(reg: Regulations, phase: GroupPhase, i: nat, x: Entry)
    requires i < |phase.groups| && Distinct(phase.groups[i].entries) && x in phase.groups[i].entries
    ensures RankedIn(OrderIn(reg, phase, i), GroupTableOf(reg, phase, phase.groups[i]), x)
  {
    var group := phase.groups[i];
    OrderKeepsEntries(reg, phase, i);
    RowInOwnTable(Group(CountedIn(phase, group), Members(group.entries), reg.rule), OrderIn(reg, phase, i), x);
  }

  /** Later groups do not overwrite the rows of earlier ones. */
  lemma {:induction false} RowOfGroup(reg: Regulations, phase: GroupPhase, i: nat, x: Entry)
    requires ProperGroups(phase) && i < |phase.groups| && x in phase.groups[i].entries
    ensures RankedIn(OrderIn(reg, phase, i), Merged(TablesOf(reg, phase)), x)
  {
    var tables := TablesOf(reg, phase);
    forall j | i < j < |tables| ensures x !in tables[j] {
      TableKeys(reg, phase, j);
    }
    RowOfOwnGroup(reg, phase, i, x);
    RowAfterMerge(tables, i, x);
  }

  lemma {:induction false} TablesRankGroups(reg: Regulations, phase: GroupPhase)
    requires ProperGroups(phase)
    ensures Grouped(Rosters(phase), Merged(TablesOf(reg, phase)))
  {
    var tables := Merged(TablesOf(reg, phase));
    forall i | 0 <= i < |phase.groups| ensures RanksGroup(phase.groups[i].entries, tables) {
      OrderKeepsEntries(reg, phase, i);
      SameLength(OrderIn(reg, phase, i), phase.groups[i].entries);
      forall x | x in phase.groups[i].entries ensures RankedIn(OrderIn(reg, phase, i), tables, x) {
        RowOfGroup(reg, phase, i, x);
      }
      RanksFollowOrder(OrderIn(reg, phase, i), phase.groups[i].entries, tables);
    }
  }

  function QualifiedEntries(reg: Regulations, phase: GroupPhase): seq<Entry> {
    EntriesOf(Qualifiers(Rosters(phase), Merged(TablesOf(reg, phase)), reg.perGroup, reg.bestThirds))
  }

  lemma {:induction false} SelectedOnce(
      rosters: seq<seq<Entry>>, byEntry: map<Entry, Standing>, perGroup: nat, bestThirds: nat)
    requires Grouped(rosters, byEntry)
    ensures
      var entries := EntriesOf(Qualifiers(rosters, byEntry, perGroup, bestThirds));
      Distinct(entries) &&
      |entries| == DirectPlaces(rosters, perGroup) + Least(bestThirds, LargeGroups(rosters, perGroup + 1))
  {
    QualifierCount(rosters, byEntry, perGroup, bestThirds);
    QualifiersAreDistinct(rosters, byEntry, perGroup, bestThirds);
    DistinctEntries(Qualifiers(rosters, byEntry, perGroup, bestThirds));
  }

  /** As many entries qualify as the groups have places, nobody twice. */
  lemma {:induction false} QualifiedOnce(reg: Regulations, phase: GroupPhase)
    requires ProperGroups(phase)
    ensures Distinct(QualifiedEntries(reg, phase))
    ensures
      |QualifiedEntries(reg, phase)| ==
      DirectPlaces(Rosters(phase), reg.perGroup) + Least(reg.bestThirds, LargeGroups(Rosters(phase), reg.perGroup + 1))
  {
    TablesRankGroups(reg, phase);
    SelectedOnce(Rosters(phase), Merged(TablesOf(reg, phase)), reg.perGroup, reg.bestThirds);
  }

  lemma {:induction false} DistinctEntries(slots: seq<Slot>)
    requires DistinctSlots(slots)
    ensures Distinct(EntriesOf(slots))
  {
    forall i, j | 0 <= i < j < |slots| ensures EntriesOf(slots)[i] != EntriesOf(slots)[j] {
      assert !SameEntry(slots[i], slots[j]);
    }
  }

  lemma {:induction false} SeedPairsUseEachOnce(entries: seq<Entry>, crossing: Crossing)
    requires |entries| >= 2 && Distinct(entries)
    ensures NoRepeats(SeedPairs(entries, crossing)) && Covers(SeedPairs(entries, crossing), entries)
    ensures OrdersCount(SeedPairs(entries, crossing)) && SeedPairs(entries, crossing) != []
    ensures HasMatch(SeedPairs(entries, crossing))
  {
    var pairs := SeedPairs(entries, crossing);
    SequentialPairsUseEachOnce(entries);
    StandardSeeding(entries);
    assert pairs[|pairs| - 1].entryB.Some? || pairs[0].entryB.Some?;
  }

  /**
   * When the last match of the groups is in and no bracket was published, one recomputation creates a first round
   * that exactly the qualified entries play, each once, in a match or with a bye.
   */
  lemma {:induction false} QualifiersPlayFirstRound(reg: Regulations, e: Competition, date: Date)
    requires e.phase.Some? && ProperGroups(e.phase.value) && Decided(e.phase.value)
    requires DefinedRounds(e.bracket) == {} && RowsAt(e.bracket, 1) == map[]
    requires |QualifiedEntries(reg, e.phase.value)| >= 2
    ensures
      var pairs := SeedPairs(QualifiedEntries(reg, e.phase.value), reg.setup.crossing);
      var after := Recompute(reg, e, date).bracket;
      NoRepeats(pairs) && Covers(pairs, QualifiedEntries(reg, e.phase.value)) &&
      RoundIs(RowsAt(after, 1), ByesAt(after, 1), pairs)
  {
    var entries := QualifiedEntries(reg, e.phase.value);
    var pairs := SeedPairs(entries, reg.setup.crossing);
    var b := Sourced(reg, e);
    QualifiedOnce(reg, e.phase.value);
    SeedPairsUseEachOnce(entries, reg.setup.crossing);
    assert b.source.slots == entries;
    assert RowsAt(b, 1) == RowsAt(e.bracket, 1) && DefinedRounds(b) == DefinedRounds(e.bracket);
    assert FirstPairs(reg.setup, b) == pairs;
    FreshRoundIs(pairs, date);
  }

  lemma {:induction false} FreshRoundIs(pairs: seq<Pair>, date: Date)
    requires ProperPairs(pairs)
    ensures RoundIs(FillRound(map[], pairs, date), ByesOf(pairs), pairs)
  {
    var rows := FillRound(map[], pairs, date);
    forall i | 0 <= i < |pairs| && pairs[i].entryB.Some? ensures Hosts(rows, pairs[i]) {
      FillRoundAt(map[], pairs, date, i);
    }
    forall s | s in rows && Filled(rows[s]) ensures RealSlot(pairs, s) {
      if !RealSlot(pairs, s) {
        FillRoundElsewhere(map[], pairs, date, s);
      }
    }
  }

  // ----- What the labels of a published bracket name -----

  /** A group label names the entry at that rank of that group, and nothing when the group has no such rank. */
  lemma {:induction false} GroupLabelNamesRank(
      reg: Regulations, rosters: seq<seq<Entry>>, byEntry: map<Entry, Standing>, l: Label)
    requires Grouped(rosters, byEntry) && l in reg.labels && reg.labels[l].InGroup?
    ensures
      var named, p := PlacedLabels(reg, rosters, byEntry), reg.labels[l];
      (l in named <==> p.group < |rosters| && 1 <= p.position <= |rosters[p.group]|) &&
      (l in named ==> named[l] in rosters[p.group] && HasRank(byEntry, named[l], p.position))
  {
    var p := reg.labels[l];
    if p.group < |rosters| {
      var group := rosters[p.group];
      assert RanksGroup(group, byEntry);
      WithRankFound(group, byEntry, p.position);
      WithRankSound(group, byEntry, p.position);
      var found := WithRank(group, byEntry, p.position);
      assert found != [] ==> found[0] in found;
    }
  }

  /** All the thirds, best first. */
  ghost predicate BestFirst(thirds: seq<Slot>) {
    forall p, q | 0 <= p < |thirds| && 0 <= q < |thirds| :: Better(thirds[q], thirds[p]) <==> q < p
  }

  lemma {:induction false} ThirdsBestFirst(reg: Regulations, rosters: seq<seq<Entry>>, byEntry: map<Entry, Standing>)
    requires Grouped(rosters, byEntry)
    ensures
      multiset(Thirds(reg, rosters, byEntry)) == multiset(AtPosition(rosters, byEntry, reg.perGroup + 1))
    ensures |Thirds(reg, rosters, byEntry)| == LargeGroups(rosters, reg.perGroup + 1)
    ensures BestFirst(Thirds(reg, rosters, byEntry))
  {
    PositionCount(rosters, byEntry, reg.perGroup + 1);
    DistinctThirds(rosters, byEntry, reg.perGroup + 1);
    ThirdsRanked(AtPosition(rosters, byEntry, reg.perGroup + 1), Thirds(reg, rosters, byEntry));
  }

  lemma {:induction false} DistinctThirds(rosters: seq<seq<Entry>>, byEntry: map<Entry, Standing>, position: nat)
    requires Grouped(rosters, byEntry)
    ensures DistinctSlots(AtPosition(rosters, byEntry, position))
  {
    PositionSlots(rosters, byEntry, position);
  }

  /** A best-third label names the third with exactly position - 1 better ones, and nothing when there are fewer. */
  lemma {:induction false} ThirdLabelNamesPlace(
      reg: Regulations, rosters: seq<seq<Entry>>, byEntry: map<Entry, Standing>, l: Label)
    requires Grouped(rosters, byEntry) && l in reg.labels && reg.labels[l].BestThird?
    ensures
      var named, thirds := PlacedLabels(reg, rosters, byEntry), Thirds(reg, rosters, byEntry);
      var position := reg.labels[l].position;
      BestFirst(thirds) && |thirds| == LargeGroups(rosters, reg.perGroup + 1) &&
      (l in named <==> 1 <= position <= |thirds|) &&
      (l in named ==> named[l] == thirds[position - 1].entry)
  {
    ThirdsBestFirst(reg, rosters, byEntry);
  }

  lemma {:induction false} ThirdsRanked(candidates: seq<Slot>, thirds: seq<Slot>)
    requires DistinctSlots(candidates) && thirds == Sort(Better, candidates)
    ensures BestFirst(thirds) && multiset(thirds) == multiset(candidates) && |thirds| == |candidates|
  {
    assert StrictWeak(Better);
    SortSorts(Better, candidates);
    SortPermutes(Better, candidates);
    PermutationApart(SameEntry, candidates, thirds);
    forall p, q | 0 <= p < |thirds| && 0 <= q < |thirds|
      ensures Better(thirds[q], thirds[p]) <==> q < p
    {
      if q < p {
        assert !Better(thirds[p], thirds[q]) && !SameEntry(thirds[q], thirds[p]);
      } else if p < q {
        assert !Better(thirds[q], thirds[p]);
      }
    }
  }

  /** The thirds whose stored rows stand ahead of this one's. */
  function ThirdsAhead(rosters: seq<seq<Entry>>, byEntry: map<Entry, Standing>, perGroup: nat, x: Entry): set<Entry>
    requires x in byEntry
  {
    set y | y in byEntry && y in ThirdsOf(rosters, byEntry, perGroup) && StandsAhead(byEntry[y], byEntry[x])
  }

  /** Everybody ranked just below the direct places of a group. */
  function ThirdsOf(rosters: seq<seq<Entry>>, byEntry: map<Entry, Standing>, perGroup: nat): set<Entry> {
    set i, y | 0 <= i < |rosters| && y in rosters[i] && y in byEntry && byEntry[y].rank == perGroup + 1 :: y
  }

  /** The sorted thirds, read as entries. */
  ghost predicate ListsThirds(rosters: seq<seq<Entry>>, byEntry: map<Entry, Standing>, perGroup: nat, thirds: seq<Slot>) {
    && Distinct(EntriesOf(thirds)) && Members(EntriesOf(thirds)) == ThirdsOf(rosters, byEntry, perGroup)
    && forall p | 0 <= p < |thirds| :: thirds[p].entry in byEntry && thirds[p] == SlotOf(byEntry[thirds[p].entry])
  }

  lemma {:induction false} ThirdsAreDistinct(reg: Regulations, rosters: seq<seq<Entry>>, byEntry: map<Entry, Standing>)
    requires Grouped(rosters, byEntry)
    ensures Distinct(EntriesOf(Thirds(reg, rosters, byEntry)))
  {
    var candidates := AtPosition(rosters, byEntry, reg.perGroup + 1);
    assert DistinctSlots(candidates) by { PositionSlots(rosters, byEntry, reg.perGroup + 1); }
    SortPermutes(Better, candidates);
    PermutationApart(SameEntry, candidates, Sort(Better, candidates));
    DistinctEntries(Sort(Better, candidates));
  }

  lemma {:induction false} ThirdsAreListed(reg: Regulations, rosters: seq<seq<Entry>>, byEntry: map<Entry, Standing>)
    requires Grouped(rosters, byEntry)
    ensures ListsThirds(rosters, byEntry, reg.perGroup, Thirds(reg, rosters, byEntry))
  {
    var thirds := Thirds(reg, rosters, byEntry);
    SortMembers(Better, AtPosition(rosters, byEntry, reg.perGroup + 1));
    forall p | 0 <= p < |thirds| ensures SlotAt(thirds[p], rosters, byEntry, reg.perGroup + 1) {
      PositionSlots(rosters, byEntry, reg.perGroup + 1);
      assert thirds[p] in thirds;
    }
    ThirdsAreDistinct(reg, rosters, byEntry);
    ListedThirds(rosters, byEntry, reg.perGroup, thirds);
  }

  lemma {:induction false} ListedThirds(
      rosters: seq<seq<Entry>>, byEntry: map<Entry, Standing>, perGroup: nat, thirds: seq<Slot>)
    requires Grouped(rosters, byEntry) && Distinct(EntriesOf(thirds))
    requires forall slot :: slot in thirds <==> slot in AtPosition(rosters, byEntry, perGroup + 1)
    requires forall p | 0 <= p < |thirds| :: SlotAt(thirds[p], rosters, byEntry, perGroup + 1)
    ensures ListsThirds(rosters, byEntry, perGroup, thirds)
  {
    forall y ensures y in ThirdsOf(rosters, byEntry, perGroup) <==> y in EntriesOf(thirds) {
      if y in ThirdsOf(rosters, byEntry, perGroup) {
        var i :| 0 <= i < |rosters| && y in rosters[i];
        ThirdIsListed(rosters, byEntry, perGroup, thirds, i, y);
      }
      if y in EntriesOf(thirds) {
        var p :| 0 <= p < |EntriesOf(thirds)| && EntriesOf(thirds)[p] == y;
        assert SlotAt(thirds[p], rosters, byEntry, perGroup + 1) && thirds[p].entry == y;
      }
    }
    assert Members(EntriesOf(thirds)) == ThirdsOf(rosters, byEntry, perGroup);
    forall p | 0 <= p < |thirds| ensures thirds[p].entry in byEntry && thirds[p] == SlotOf(byEntry[thirds[p].entry]) {
      assert SlotAt(thirds[p], rosters, byEntry, perGroup + 1);
    }
  }

  lemma {:induction false} ThirdIsListed(
      rosters: seq<seq<Entry>>, byEntry: map<Entry, Standing>, perGroup: nat, thirds: seq<Slot>, i: nat, y: Entry)
    requires Grouped(rosters, byEntry) && i < |rosters| && y in rosters[i] && HasRank(byEntry, y, perGroup + 1)
    requires forall slot :: slot in thirds <==> slot in AtPosition(rosters, byEntry, perGroup + 1)
    ensures y in EntriesOf(thirds)
  {
    assert RanksGroup(rosters[i], byEntry);
    PositionComplete(rosters, byEntry, perGroup + 1, i, y);
    assert SlotOf(byEntry[y]) in thirds;
    var p :| 0 <= p < |thirds| && thirds[p] == SlotOf(byEntry[y]);
    assert EntriesOf(thirds)[p] == y;
  }

  lemma {:induction false} AheadInList(
      rosters: seq<seq<Entry>>, byEntry: map<Entry, Standing>, perGroup: nat, thirds: seq<Slot>, p: nat)
    requires ListsThirds(rosters, byEntry, perGroup, thirds) && BestFirst(thirds) && p < |thirds|
    ensures |ThirdsAhead(rosters, byEntry, perGroup, thirds[p].entry)| == p
  {
    var entries, x := EntriesOf(thirds), thirds[p].entry;
    forall y ensures y in ThirdsAhead(rosters, byEntry, perGroup, x) <==> y in entries[..p] {
      if y in entries {
        var q :| 0 <= q < |entries| && entries[q] == y;
        BetterStandsAhead(byEntry[y], byEntry[x]);
        assert Better(thirds[q], thirds[p]) <==> q < p;
        assert q < p ==> entries[..p][q] == y;
        if y in entries[..p] {
          var r :| 0 <= r < p && entries[..p][r] == y;
          assert entries[r] == entries[q];
        }
      } else {
        assert y in Members(entries) <==> y in entries;
      }
    }
    assert ThirdsAhead(rosters, byEntry, perGroup, x) == Members(entries[..p]);
    CountMembers(entries[..p]);
  }

  /**
   * A best-third label names the third that exactly position - 1 other thirds stand ahead of by their stored rows, and
   * nothing when there are fewer thirds.
   */
  lemma {:induction false} ThirdLabelNamesStanding(
      reg: Regulations, rosters: seq<seq<Entry>>, byEntry: map<Entry, Standing>, l: Label)
    requires Grouped(rosters, byEntry) && l in reg.labels && reg.labels[l].BestThird?
    ensures
      var named, position := PlacedLabels(reg, rosters, byEntry), reg.labels[l].position;
      && (l in named <==> 1 <= position <= |ThirdsOf(rosters, byEntry, reg.perGroup)|)
      && (l in named ==>
            && named[l] in byEntry && named[l] in ThirdsOf(rosters, byEntry, reg.perGroup)
            && |ThirdsAhead(rosters, byEntry, reg.perGroup, named[l])| == position - 1)
  {
    var thirds, position := Thirds(reg, rosters, byEntry), reg.labels[l].position;
    ThirdLabelNamesPlace(reg, rosters, byEntry, l);
    ThirdsAreListed(reg, rosters, byEntry);
    CountMembers(EntriesOf(thirds));
    if 1 <= position <= |thirds| {
      AheadInList(rosters, byEntry, reg.perGroup, thirds, position - 1);
      assert EntriesOf(thirds)[position - 1] in Members(EntriesOf(thirds));
    }
  }
}
