/** Who leaves the group phase for the knockout. */
module Qualification {
  import opened Entries
  import opened Sorting

  /** A stored row of the table; entries without a rank have no row here. */
  datatype Standing = Standing(entry: Entry, rank: nat, points: real, scoreFor: real, scoreAgainst: real)

  datatype Slot = Slot(entry: Entry, points: real, balance: real, scoreFor: real)

  type Rankings = map<Entry, Standing>

  function SlotOf(s: Standing): Slot {
    Slot(s.entry, s.points, s.scoreFor - s.scoreAgainst, s.scoreFor)
  }

  predicate HasRank(byEntry: Rankings, x: Entry, rank: nat) {
    x in byEntry && byEntry[x].rank == rank
  }

  /** More points, then balance, then score; ids settle what is left. */
  predicate Better(a: Slot, b: Slot) {
    a.points > b.points ||
    (a.points == b.points && (a.balance > b.balance ||
    (a.balance == b.balance && (a.scoreFor > b.scoreFor ||
    (a.scoreFor == b.scoreFor && a.entry < b.entry)))))
  }

  // ----- What the loops collect -----

  /** The first entry of the group with this rank, as a slot; empty when there is none. */
  function WithRank(group: seq<Entry>, byEntry: Rankings, rank: nat): seq<Slot> {
    if group == [] then []
    else if HasRank(byEntry, group[0], rank) then [SlotOf(byEntry[group[0]])]
    else WithRank(group[1..], byEntry, rank)
  }

  function AtPosition(groups: seq<seq<Entry>>, byEntry: Rankings, position: nat): seq<Slot> {
    if groups == [] then []
    else AtPosition(groups[..|groups| - 1], byEntry, position) + WithRank(groups[|groups| - 1], byEntry, position)
  }

  /** All group winners, then all runners-up, and so on. */
  function Direct(groups: seq<seq<Entry>>, byEntry: Rankings, perGroup: nat): seq<Slot> {
    if perGroup == 0 then []
    else Direct(groups, byEntry, perGroup - 1) + AtPosition(groups, byEntry, perGroup)
  }

  function Take<T>(s: seq<T>, n: nat): seq<T> {
    if n <= |s| then s[..n] else s
  }

  function BestThirds(groups: seq<seq<Entry>>, byEntry: Rankings, perGroup: nat, bestThirds: nat): seq<Slot> {
    Take(Sort(Better, AtPosition(groups, byEntry, perGroup + 1)), bestThirds)
  }

  function Qualifiers(groups: seq<seq<Entry>>, byEntry: Rankings, perGroup: nat, bestThirds: nat): seq<Slot> {
    Direct(groups, byEntry, perGroup) + BestThirds(groups, byEntry, perGroup, bestThirds)
  }

  // ----- The loops -----

  method FindRank(group: seq<Entry>, byEntry: Rankings, rank: nat) returns (found: seq<Slot>)
    ensures found == WithRank(group, byEntry, rank)
  {
    for i := 0 to |group|
      invariant WithRank(group, byEntry, rank) == WithRank(group[i..], byEntry, rank)
    {
      if HasRank(byEntry, group[i], rank) {
        return [SlotOf(byEntry[group[i]])];
      }
    }
    return [];
  }

  method CollectPosition(groups: seq<seq<Entry>>, byEntry: Rankings, position: nat) returns (slots: seq<Slot>)
    ensures slots == AtPosition(groups, byEntry, position)
  {
    slots := [];
    for i := 0 to |groups|
      invariant slots == AtPosition(groups[..i], byEntry, position)
    {
      assert groups[..i + 1][..i] == groups[..i];
      var found := FindRank(groups[i], byEntry, position);
      slots := slots + found;
    }
    assert groups[..|groups|] == groups;
  }

  method CollectQualifiers(groups: seq<seq<Entry>>, byEntry: Rankings, perGroup: nat, bestThirds: nat)
    returns (slots: seq<Slot>)
    ensures slots == Qualifiers(groups, byEntry, perGroup, bestThirds)
  {
    slots := [];
    for position := 1 to perGroup + 1
      invariant slots == Direct(groups, byEntry, position - 1)
    {
      var found := CollectPosition(groups, byEntry, position);
      slots := slots + found;
    }
    if bestThirds > 0 {
      var candidates := CollectPosition(groups, byEntry, perGroup + 1);
      slots := slots + Take(Sort(Better, candidates), bestThirds);
    } else {
      assert BestThirds(groups, byEntry, perGroup, bestThirds) == [];
    }
  }

  // ----- Ranked, disjoint groups -----

  ghost predicate HoldsRank(group: seq<Entry>, byEntry: Rankings, rank: nat) {
    exists x :: x in group && HasRank(byEntry, x, rank)
  }

  /** The ranks of a group are a bijection onto 1..n. */
  ghost predicate RanksGroup(group: seq<Entry>, byEntry: Rankings) {
    (forall x | x in group :: x in byEntry && byEntry[x].entry == x && 1 <= byEntry[x].rank <= |group|) &&
    (forall i, j | 0 <= i < j < |group| :: byEntry[group[i]].rank != byEntry[group[j]].rank) &&
    (forall rank: nat | 1 <= rank <= |group| :: HoldsRank(group, byEntry, rank))
  }

  ghost predicate Grouped(groups: seq<seq<Entry>>, byEntry: Rankings) {
    (forall i | 0 <= i < |groups| :: RanksGroup(groups[i], byEntry)) &&
    (forall i, j, x | 0 <= i < j < |groups| && x in groups[i] :: x !in groups[j])
  }

  ghost predicate InSome(groups: seq<seq<Entry>>, x: Entry) {
    exists i :: 0 <= i < |groups| && x in groups[i]
  }

  function LargeGroups(groups: seq<seq<Entry>>, size: nat): nat {
    if groups == [] then 0
    else LargeGroups(groups[..|groups| - 1], size) + if |groups[|groups| - 1]| >= size then 1 else 0
  }

  function DirectPlaces(groups: seq<seq<Entry>>, perGroup: nat): nat {
    if groups == [] then 0
    else DirectPlaces(groups[..|groups| - 1], perGroup) + Least(perGroup, |groups[|groups| - 1]|)
  }

  function Least(a: nat, b: nat): nat {
    if a < b then a else b
  }

  // ----- How many qualify -----

  lemma {:induction false} WithRankFound(group: seq<Entry>, byEntry: Rankings, rank: nat)
    ensures |WithRank(group, byEntry, rank)| == if HoldsRank(group, byEntry, rank) then 1 else 0
  {
    if group != [] {
      WithRankFound(group[1..], byEntry, rank);
      assert group == [group[0]] + group[1..];
    }
  }

  lemma {:induction false} PositionCount(groups: seq<seq<Entry>>, byEntry: Rankings, position: nat)
    requires Grouped(groups, byEntry) && position >= 1
    ensures |AtPosition(groups, byEntry, position)| == LargeGroups(groups, position)
  {
    if groups != [] {
      var n := |groups| - 1;
      PositionCount(groups[..n], byEntry, position);
      assert RanksGroup(groups[n], byEntry);
      WithRankFound(groups[n], byEntry, position);
    }
  }

  lemma {:induction false} OneMorePlace(groups: seq<seq<Entry>>, perGroup: nat)
    ensures DirectPlaces(groups, perGroup + 1) == DirectPlaces(groups, perGroup) + LargeGroups(groups, perGroup + 1)
  {
    if groups != [] {
      OneMorePlace(groups[..|groups| - 1], perGroup);
    }
  }

  lemma {:induction false} NoPlaces(groups: seq<seq<Entry>>)
    ensures DirectPlaces(groups, 0) == 0
  {
    if groups != [] {
      NoPlaces(groups[..|groups| - 1]);
    }
  }

  lemma {:induction false} DirectCount(groups: seq<seq<Entry>>, byEntry: Rankings, perGroup: nat)
    requires Grouped(groups, byEntry)
    ensures |Direct(groups, byEntry, perGroup)| == DirectPlaces(groups, perGroup)
  {
    if perGroup == 0 {
      NoPlaces(groups);
    } else {
      DirectCount(groups, byEntry, perGroup - 1);
      DirectGrows(groups, byEntry, perGroup);
      OneMorePlace(groups, perGroup - 1);
    }
  }

  lemma {:induction false} DirectGrows(groups: seq<seq<Entry>>, byEntry: Rankings, perGroup: nat)
    requires Grouped(groups, byEntry) && perGroup > 0
    ensures
      |Direct(groups, byEntry, perGroup)| == |Direct(groups, byEntry, perGroup - 1)| + LargeGroups(groups, perGroup)
  {
    PositionCount(groups, byEntry, perGroup);
  }

  /** min(perGroup, size) places in each group, and as many best thirds as asked for or as there are. */
  lemma {:induction false} QualifierCount(groups: seq<seq<Entry>>, byEntry: Rankings, perGroup: nat, bestThirds: nat)
    requires Grouped(groups, byEntry)
    ensures
      |Qualifiers(groups, byEntry, perGroup, bestThirds)| ==
      DirectPlaces(groups, perGroup) + Least(bestThirds, LargeGroups(groups, perGroup + 1))
  {
    DirectCount(groups, byEntry, perGroup);
    PositionCount(groups, byEntry, perGroup + 1);
    SortPermutes(Better, AtPosition(groups, byEntry, perGroup + 1));
  }

  // ----- Who they are -----

  /** The entry of the slot is in some group with this rank, and the slot is its standing. */
  ghost predicate SlotAt(slot: Slot, groups: seq<seq<Entry>>, byEntry: Rankings, rank: nat) {
    InSome(groups, slot.entry) && HasRank(byEntry, slot.entry, rank) && slot == SlotOf(byEntry[slot.entry])
  }

  predicate SameEntry(a: Slot, b: Slot) {
    a.entry == b.entry
  }

  ghost predicate DistinctSlots(slots: seq<Slot>) {
    Apart(SameEntry, slots)
  }

  lemma {:induction false} WithRankSound(group: seq<Entry>, byEntry: Rankings, rank: nat)
    requires forall x | x in group :: x in byEntry && byEntry[x].entry == x
    ensures forall slot | slot in WithRank(group, byEntry, rank) ::
      slot.entry in group && HasRank(byEntry, slot.entry, rank) && slot == SlotOf(byEntry[slot.entry])
  {
    if group != [] {
      WithRankSound(group[1..], byEntry, rank);
    }
  }

  lemma {:induction false} PositionSlots(groups: seq<seq<Entry>>, byEntry: Rankings, position: nat)
    requires Grouped(groups, byEntry)
    ensures forall slot | slot in AtPosition(groups, byEntry, position) :: SlotAt(slot, groups, byEntry, position)
    ensures DistinctSlots(AtPosition(groups, byEntry, position))
  {
    if groups != [] {
      var n := |groups| - 1;
      PositionSlots(groups[..n], byEntry, position);
      assert RanksGroup(groups[n], byEntry);
      WithRankSound(groups[n], byEntry, position);
      WithRankFound(groups[n], byEntry, position);
      var before, last := AtPosition(groups[..n], byEntry, position), WithRank(groups[n], byEntry, position);
      forall slot | slot in before ensures SlotAt(slot, groups, byEntry, position) && slot.entry !in groups[n] {
        assert SlotAt(slot, groups[..n], byEntry, position);
        var i :| 0 <= i < n && slot.entry in groups[..n][i];
        assert slot.entry in groups[i];
      }
      forall slot | slot in last ensures SlotAt(slot, groups, byEntry, position) {
        assert slot.entry in groups[n];
      }
    }
  }

  /** Every entry of that rank is there. */
  lemma {:induction false} PositionComplete(groups: seq<seq<Entry>>, byEntry: Rankings, position: nat, i: nat, x: Entry)
    requires Grouped(groups, byEntry) && i < |groups| && x in groups[i] && HasRank(byEntry, x, position)
    ensures SlotOf(byEntry[x]) in AtPosition(groups, byEntry, position)
    decreases |groups|
  {
    var n := |groups| - 1;
    if i < n {
      PositionComplete(groups[..n], byEntry, position, i, x);
    } else {
      var group := groups[n];
      assert RanksGroup(group, byEntry);
      WithRankFound(group, byEntry, position);
      WithRankSound(group, byEntry, position);
      var slot := WithRank(group, byEntry, position)[0];
      assert slot in WithRank(group, byEntry, position);
      assert slot.entry == x;
    }
  }

  lemma {:induction false} DirectSlots(groups: seq<seq<Entry>>, byEntry: Rankings, perGroup: nat)
    requires Grouped(groups, byEntry)
    ensures forall slot | slot in Direct(groups, byEntry, perGroup) ::
      InSome(groups, slot.entry) && slot.entry in byEntry && byEntry[slot.entry].rank <= perGroup &&
      slot == SlotOf(byEntry[slot.entry])
    ensures DistinctSlots(Direct(groups, byEntry, perGroup))
  {
    if perGroup > 0 {
      DirectSlots(groups, byEntry, perGroup - 1);
      PositionSlots(groups, byEntry, perGroup);
      var before, last := Direct(groups, byEntry, perGroup - 1), AtPosition(groups, byEntry, perGroup);
      forall slot | slot in last ensures SlotAt(slot, groups, byEntry, perGroup) {
      }
      forall i, j | 0 <= i < |before| && 0 <= j < |last| ensures before[i].entry != last[j].entry {
        assert before[i] in before && last[j] in last;
      }
    }
  }

  lemma {:induction false} DirectComplete(groups: seq<seq<Entry>>, byEntry: Rankings, perGroup: nat, i: nat, x: Entry)
    requires Grouped(groups, byEntry) && i < |groups| && x in groups[i] && byEntry[x].rank <= perGroup
    ensures SlotOf(byEntry[x]) in Direct(groups, byEntry, perGroup)
    decreases perGroup
  {
    assert RanksGroup(groups[i], byEntry);
    if byEntry[x].rank == perGroup {
      PositionComplete(groups, byEntry, perGroup, i, x);
    } else {
      DirectComplete(groups, byEntry, perGroup - 1, i, x);
    }
  }

  // ----- Best thirds -----

  /** At least as many points; at equal points at least the balance, then at least the score, then the lower id. */
  predicate StandsAhead(a: Standing, b: Standing) {
    var balanceA, balanceB := a.scoreFor - a.scoreAgainst, b.scoreFor - b.scoreAgainst;
    && a.points >= b.points
    && (a.points == b.points ==> balanceA >= balanceB)
    && (a.points == b.points && balanceA == balanceB ==> a.scoreFor >= b.scoreFor)
    && (a.points == b.points && balanceA == balanceB && a.scoreFor == b.scoreFor ==> a.entry < b.entry)
  }

  lemma {:induction false} BetterStandsAhead(a: Standing, b: Standing)
    ensures Better(SlotOf(a), SlotOf(b)) <==> StandsAhead(a, b)
  {
  }

  /** The entry is ranked just below the direct places of its group. */
  ghost predicate IsThird(groups: seq<seq<Entry>>, byEntry: Rankings, perGroup: nat, x: Entry) {
    InSome(groups, x) && HasRank(byEntry, x, perGroup + 1)
  }

  ghost predicate GoesThrough(groups: seq<seq<Entry>>, byEntry: Rankings, perGroup: nat, bestThirds: nat, x: Entry) {
    exists slot :: slot in Qualifiers(groups, byEntry, perGroup, bestThirds) && slot.entry == x
  }

  /** Every third that goes through stands ahead of every third that does not, by the stored rows of the two. */
  lemma {:induction false} ChosenThirdsStandAhead(
      groups: seq<seq<Entry>>, byEntry: Rankings, perGroup: nat, bestThirds: nat, x: Entry, y: Entry)
    requires Grouped(groups, byEntry)
    requires IsThird(groups, byEntry, perGroup, x) && GoesThrough(groups, byEntry, perGroup, bestThirds, x)
    requires IsThird(groups, byEntry, perGroup, y) && !GoesThrough(groups, byEntry, perGroup, bestThirds, y)
    ensures StandsAhead(byEntry[x], byEntry[y])
  {
    var thirds := BestThirds(groups, byEntry, perGroup, bestThirds);
    var i :| 0 <= i < |groups| && y in groups[i];
    PositionComplete(groups, byEntry, perGroup + 1, i, y);
    var slot :| slot in Qualifiers(groups, byEntry, perGroup, bestThirds) && slot.entry == x;
    DirectSlots(groups, byEntry, perGroup);
    ThirdsAreThirds(groups, byEntry, perGroup, bestThirds);
    assert slot in thirds && SlotAt(slot, groups, byEntry, perGroup + 1);
    assert SlotOf(byEntry[y]).entry == y by { assert RanksGroup(groups[i], byEntry); }
    assert SlotOf(byEntry[y]) !in thirds;
    BestThirdsDominate(groups, byEntry, perGroup, bestThirds, slot, SlotOf(byEntry[y]));
    BetterStandsAhead(byEntry[x], byEntry[y]);
  }

  /** The same of the slots the selection sorts. */
  lemma {:induction false} BestThirdsDominate(
      groups: seq<seq<Entry>>, byEntry: Rankings, perGroup: nat, bestThirds: nat, chosen: Slot, left: Slot)
    requires Grouped(groups, byEntry)
    requires chosen in BestThirds(groups, byEntry, perGroup, bestThirds)
    requires left in AtPosition(groups, byEntry, perGroup + 1) && left !in BestThirds(groups, byEntry, perGroup, bestThirds)
    ensures Better(chosen, left)
  {
    var candidates := AtPosition(groups, byEntry, perGroup + 1);
    var sorted := Sort(Better, candidates);
    SortSorts(Better, candidates);
    SortMembers(Better, candidates);
    SortPermutes(Better, candidates);
    PositionSlots(groups, byEntry, perGroup + 1);
    PermutationApart(SameEntry, candidates, sorted);
    var j :| 0 <= j < |sorted| && sorted[j] == left;
    var i :| 0 <= i < |sorted| && i < bestThirds && sorted[i] == chosen;
    assert i < j;
    assert chosen.entry != left.entry;
  }

  lemma {:induction false} ThirdsAreThirds(groups: seq<seq<Entry>>, byEntry: Rankings, perGroup: nat, bestThirds: nat)
    requires Grouped(groups, byEntry)
    ensures forall slot | slot in BestThirds(groups, byEntry, perGroup, bestThirds) ::
      SlotAt(slot, groups, byEntry, perGroup + 1)
    ensures DistinctSlots(BestThirds(groups, byEntry, perGroup, bestThirds))
  {
    var candidates := AtPosition(groups, byEntry, perGroup + 1);
    PositionSlots(groups, byEntry, perGroup + 1);
    SortMembers(Better, candidates);
    SortPermutes(Better, candidates);
    PermutationApart(SameEntry, candidates, Sort(Better, candidates));
  }

  // ----- In which order -----

  ghost predicate InEarlierGroup(groups: seq<seq<Entry>>, x: Entry, y: Entry) {
    exists i, j :: 0 <= i < j < |groups| && x in groups[i] && y in groups[j]
  }

  /** One entry is listed before another: by its rank in the group, then by the group, thirds by their rows. */
  ghost predicate ListedBefore(groups: seq<seq<Entry>>, byEntry: Rankings, perGroup: nat, x: Entry, y: Entry) {
    && x in byEntry && y in byEntry && byEntry[x].rank <= byEntry[y].rank
    && (byEntry[x].rank == byEntry[y].rank <= perGroup ==> InEarlierGroup(groups, x, y))
    && (byEntry[x].rank == byEntry[y].rank > perGroup ==> StandsAhead(byEntry[x], byEntry[y]))
  }

  ghost predicate InGroupOrder(groups: seq<seq<Entry>>, slots: seq<Slot>) {
    forall a, b | 0 <= a < b < |slots| :: InEarlierGroup(groups, slots[a].entry, slots[b].entry)
  }

  lemma {:induction false} PositionInGroupOrder(groups: seq<seq<Entry>>, byEntry: Rankings, position: nat)
    requires Grouped(groups, byEntry)
    ensures InGroupOrder(groups, AtPosition(groups, byEntry, position))
  {
    if groups != [] {
      var n := |groups| - 1;
      PositionInGroupOrder(groups[..n], byEntry, position);
      PositionSlots(groups[..n], byEntry, position);
      assert RanksGroup(groups[n], byEntry);
      WithRankSound(groups[n], byEntry, position);
      WithRankFound(groups[n], byEntry, position);
      var before, last := AtPosition(groups[..n], byEntry, position), WithRank(groups[n], byEntry, position);
      var all := before + last;
      forall a, b | 0 <= a < b < |all| ensures InEarlierGroup(groups, all[a].entry, all[b].entry) {
        if b < |before| {
          assert InEarlierGroup(groups[..n], before[a].entry, before[b].entry);
          var i, j :| 0 <= i < j < n && before[a].entry in groups[..n][i] && before[b].entry in groups[..n][j];
          assert all[a].entry in groups[i] && all[b].entry in groups[j];
        } else {
          assert before[a] in before && SlotAt(before[a], groups[..n], byEntry, position);
          var i :| 0 <= i < n && before[a].entry in groups[..n][i];
          assert all[b] in last;
          assert all[a].entry in groups[i] && all[b].entry in groups[n];
        }
      }
    }
  }

  lemma {:induction false} DirectInOrder(groups: seq<seq<Entry>>, byEntry: Rankings, perGroup: nat, limit: nat, a: nat, b: nat)
    requires Grouped(groups, byEntry) && limit <= perGroup && a < b < |Direct(groups, byEntry, limit)|
    ensures
      ListedBefore(groups, byEntry, perGroup, Direct(groups, byEntry, limit)[a].entry, Direct(groups, byEntry, limit)[b].entry)
  {
    var before, last := Direct(groups, byEntry, limit - 1), AtPosition(groups, byEntry, limit);
    DirectSlots(groups, byEntry, limit - 1);
    PositionSlots(groups, byEntry, limit);
    if b < |before| {
      DirectInOrder(groups, byEntry, perGroup, limit - 1, a, b);
    } else if a < |before| {
      assert before[a] in before && last[b - |before|] in last;
      assert SlotAt(last[b - |before|], groups, byEntry, limit);
    } else {
      PositionInGroupOrder(groups, byEntry, limit);
      assert last[a - |before|] in last && last[b - |before|] in last;
      assert SlotAt(last[a - |before|], groups, byEntry, limit) && SlotAt(last[b - |before|], groups, byEntry, limit);
    }
  }

  lemma {:induction false} ThirdsInOrder(
      groups: seq<seq<Entry>>, byEntry: Rankings, perGroup: nat, bestThirds: nat, a: nat, b: nat)
    requires Grouped(groups, byEntry) && a < b < |BestThirds(groups, byEntry, perGroup, bestThirds)|
    ensures
      var thirds := BestThirds(groups, byEntry, perGroup, bestThirds);
      ListedBefore(groups, byEntry, perGroup, thirds[a].entry, thirds[b].entry)
  {
    var candidates, thirds := AtPosition(groups, byEntry, perGroup + 1), BestThirds(groups, byEntry, perGroup, bestThirds);
    SortSorts(Better, candidates);
    ThirdsAreThirds(groups, byEntry, perGroup, bestThirds);
    assert thirds[a] in thirds && thirds[b] in thirds;
    assert SlotAt(thirds[a], groups, byEntry, perGroup + 1) && SlotAt(thirds[b], groups, byEntry, perGroup + 1);
    assert !Better(thirds[b], thirds[a]) && !SameEntry(thirds[a], thirds[b]);
    assert Better(thirds[a], thirds[b]);
    BetterStandsAhead(byEntry[thirds[a].entry], byEntry[thirds[b].entry]);
  }

  /** Qualifiers are listed by rank; equal direct ranks in the order of the groups, thirds the one ahead first. */
  lemma {:induction false} QualifiersInOrder(
      groups: seq<seq<Entry>>, byEntry: Rankings, perGroup: nat, bestThirds: nat, a: nat, b: nat)
    requires Grouped(groups, byEntry) && a < b < |Qualifiers(groups, byEntry, perGroup, bestThirds)|
    ensures
      var slots := Qualifiers(groups, byEntry, perGroup, bestThirds);
      ListedBefore(groups, byEntry, perGroup, slots[a].entry, slots[b].entry)
  {
    var direct, thirds := Direct(groups, byEntry, perGroup), BestThirds(groups, byEntry, perGroup, bestThirds);
    if b < |direct| {
      DirectInOrder(groups, byEntry, perGroup, perGroup, a, b);
    } else if a < |direct| {
      DirectSlots(groups, byEntry, perGroup);
      ThirdsAreThirds(groups, byEntry, perGroup, bestThirds);
      assert direct[a] in direct && thirds[b - |direct|] in thirds;
      assert SlotAt(thirds[b - |direct|], groups, byEntry, perGroup + 1);
    } else {
      ThirdsInOrder(groups, byEntry, perGroup, bestThirds, a - |direct|, b - |direct|);
    }
  }

  /** No entry qualifies twice, and those ranked within perGroup always do. */
  lemma {:induction false} QualifiersAreDistinct(
      groups: seq<seq<Entry>>, byEntry: Rankings, perGroup: nat, bestThirds: nat)
    requires Grouped(groups, byEntry)
    ensures DistinctSlots(Qualifiers(groups, byEntry, perGroup, bestThirds))
    ensures forall i, x | 0 <= i < |groups| && x in groups[i] && x in byEntry && byEntry[x].rank <= perGroup ::
      SlotOf(byEntry[x]) in Qualifiers(groups, byEntry, perGroup, bestThirds)
    ensures forall slot | slot in Qualifiers(groups, byEntry, perGroup, bestThirds) ::
      InSome(groups, slot.entry) && slot.entry in byEntry && byEntry[slot.entry].rank <= perGroup + 1
  {
    DirectSlots(groups, byEntry, perGroup);
    ThirdsAreThirds(groups, byEntry, perGroup, bestThirds);
    var direct, thirds := Direct(groups, byEntry, perGroup), BestThirds(groups, byEntry, perGroup, bestThirds);
    forall slot | slot in thirds ensures SlotAt(slot, groups, byEntry, perGroup + 1) {
    }
    forall i, j | 0 <= i < |direct| && 0 <= j < |thirds| ensures direct[i].entry != thirds[j].entry {
      assert direct[i] in direct && thirds[j] in thirds;
    }
    forall i, x | 0 <= i < |groups| && x in groups[i] && x in byEntry && byEntry[x].rank <= perGroup
      ensures SlotOf(byEntry[x]) in Qualifiers(groups, byEntry, perGroup, bestThirds)
    {
      DirectComplete(groups, byEntry, perGroup, i, x);
    }
  }
}
