/** Who plays where, read off the stored rows: the next round has those who went on, third place those who did not. */
module BracketPlaces {
  import opened Wrappers
  import opened Entries
  import opened NatSets
  import opened Seeding
  import opened KnockoutPhase
  import opened BracketInvariant
  import opened BracketResults
  import opened BracketRuns

  // ----- Who goes on -----

  /** The entry won a match of this round, or has a bye in it. */
  ghost predicate GoesOnFrom(b: Bracket, round: nat, e: Entry) {
    || (exists s :: s in RowsAt(b, round) && s > 0 && RowsAt(b, round)[s].winner == Some(e))
    || (exists s :: s in ByesAt(b, round) && s > 0 && s !in RowsAt(b, round) && ByesAt(b, round)[s] == e)
  }

  lemma {:induction false} AdvancersGoOn(b: Bracket, round: nat, e: Entry)
    requires AllWon(RowsAt(b, round))
    ensures e in Advancers(RowsAt(b, round), ByesAt(b, round)) <==> GoesOnFrom(b, round, e)
  {
    var rows, byes := RowsAt(b, round), ByesAt(b, round);
    var slots, ahead := SlotOrders(rows, byes), Advancers(rows, byes);
    if e in ahead {
      var i :| 0 <= i < |ahead| && ahead[i] == e;
      assert slots[i] in slots;
    }
    if GoesOnFrom(b, round, e) {
      var s :| s > 0 && s in rows.Keys + byes.Keys && AdvancerAt(rows, byes, s) == e;
      assert s in slots;
      var i :| 0 <= i < |slots| && slots[i] == s;
      assert ahead[i] == e;
    }
  }

  /** The entry plays in a match of this round, or has a bye in it. */
  ghost predicate TakesPart(b: Bracket, round: nat, e: Entry) {
    InMatch(RowsAt(b, round), e) || InByes(ByesAt(b, round), e)
  }

  lemma {:induction false} PairedEntry(entries: seq<Entry>, k: nat)
    requires k < 2 * |SequentialPairs(entries)| && EntrantAt(SequentialPairs(entries), k).Some?
    ensures k < |entries| && EntrantAt(SequentialPairs(entries), k) == Some(entries[k])
  {
  }

  lemma {:induction false} MatchPlaysEntry(rows: Rows, byes: Byes, entries: seq<Entry>, e: Entry)
    requires RoundFits(rows, byes, SequentialPairs(entries)) && InMatch(rows, e)
    ensures e in entries
  {
    var k := PlaceInMatch(rows, byes, SequentialPairs(entries), e);
    PairedEntry(entries, 2 * k);
    PairedEntry(entries, 2 * k + 1);
  }

  lemma {:induction false} ByeOfEntry(byes: Byes, entries: seq<Entry>, e: Entry)
    requires byes == ByesOf(SequentialPairs(entries)) && InByes(byes, e)
    ensures e in entries
  {
    var k := PlaceInByes(SequentialPairs(entries), e);
    PairedEntry(entries, 2 * k);
  }

  lemma {:induction false} RoundPlays(rows: Rows, byes: Byes, entries: seq<Entry>, e: Entry)
    requires Defined(rows) && RoundFits(rows, byes, SequentialPairs(entries))
    ensures InMatch(rows, e) || InByes(byes, e) <==> e in entries
  {
    if e in entries {
      var k :| 0 <= k < |entries| && entries[k] == e;
      AdvancerSits(rows, byes, entries, k);
    } else if InMatch(rows, e) {
      MatchPlaysEntry(rows, byes, entries, e);
    } else if InByes(byes, e) {
      ByeOfEntry(byes, entries, e);
    }
  }

  /** After every safe run, a later round that is all filled is played by exactly those who came through the one before. */
  lemma {:induction false} NextRoundHasThoseWhoWentOn(
      setup: Setup, b: Bracket, steps: seq<Step>, round: nat, e: Entry)
    requires Initial(b) && SafeRun(setup, b, steps) && round >= 1
    requires Defined(RowsAt(Run(setup, b, steps), round + 1))
    ensures var now := Run(setup, b, steps); TakesPart(now, round + 1, e) <==> GoesOnFrom(now, round, e)
  {
    var now := Run(setup, b, steps);
    RunKeepsConsistent(setup, b, steps);
    LaterRoundPlays(Seeded(setup, now), now, round, round + 1, e);
  }

  lemma {:induction false} LaterRoundPlays(seeded: seq<Pair>, b: Bracket, before: nat, round: nat, e: Entry)
    requires Consistent(seeded, b) && before >= 1 && round == before + 1 && Defined(RowsAt(b, round))
    ensures TakesPart(b, round, e) <==> GoesOnFrom(b, before, e)
  {
    DefinedHasMatch(RowsAt(b, round));
    PairedFromBefore(seeded, b, before, round);
    RoundPlays(RowsAt(b, round), ByesAt(b, round), Advancers(RowsAt(b, before), ByesAt(b, before)), e);
    AdvancersGoOn(b, before, e);
  }

  // ----- Who meets whom -----

  /** Who goes on from this slot of the round: the winner of its match, or the entry with the bye. */
  function WentOnFrom(b: Bracket, round: nat, slot: nat): Option<Entry> {
    if slot in RowsAt(b, round) then RowsAt(b, round)[slot].winner
    else if slot in ByesAt(b, round) then Some(ByesAt(b, round)[slot])
    else None
  }

  /** The slots of the round below this one. */
  function SlotsBelow(b: Bracket, round: nat, slot: nat): set<nat> {
    set s | s in RowsAt(b, round).Keys + ByesAt(b, round).Keys && 0 < s < slot
  }

  /** Slot t follows slot s, which so many slots come before. */
  ghost predicate Neighbours(b: Bracket, round: nat, s: nat, t: nat, before: nat) {
    && 0 < s < t && |SlotsBelow(b, round, s)| == before
    && SlotsBelow(b, round, t) == SlotsBelow(b, round, s) + {s}
  }

  lemma {:induction false} SlotsBelowAt(b: Bracket, round: nat, i: nat)
    requires i < |SlotOrders(RowsAt(b, round), ByesAt(b, round))|
    ensures
      var slots := SlotOrders(RowsAt(b, round), ByesAt(b, round));
      SlotsBelow(b, round, slots[i]) == Members(slots[..i]) && |SlotsBelow(b, round, slots[i])| == i && slots[i] > 0
  {
    var slots := SlotOrders(RowsAt(b, round), ByesAt(b, round));
    assert slots[i] in slots;
    forall s ensures s in SlotsBelow(b, round, slots[i]) <==> s in slots[..i] {
      if s in SlotsBelow(b, round, slots[i]) {
        assert s in slots;
        var j :| 0 <= j < |slots| && slots[j] == s;
        assert slots[..i][j] == s;
      }
      if s in slots[..i] {
        assert s in slots;
      }
    }
    CountMembers(slots[..i]);
  }

  lemma {:induction false} NeighboursAt(b: Bracket, round: nat, i: nat)
    requires i + 1 < |SlotOrders(RowsAt(b, round), ByesAt(b, round))|
    ensures
      var slots := SlotOrders(RowsAt(b, round), ByesAt(b, round));
      Neighbours(b, round, slots[i], slots[i + 1], i)
  {
    var slots := SlotOrders(RowsAt(b, round), ByesAt(b, round));
    SlotsBelowAt(b, round, i);
    SlotsBelowAt(b, round, i + 1);
    assert slots[..i + 1] == slots[..i] + [slots[i]];
  }

  lemma {:induction false} WentOnAt(b: Bracket, round: nat, i: nat)
    requires AllWon(RowsAt(b, round)) && i < |SlotOrders(RowsAt(b, round), ByesAt(b, round))|
    ensures
      WentOnFrom(b, round, SlotOrders(RowsAt(b, round), ByesAt(b, round))[i]) ==
      Some(Advancers(RowsAt(b, round), ByesAt(b, round))[i])
  {
    var slots := SlotOrders(RowsAt(b, round), ByesAt(b, round));
    assert slots[i] in slots;
  }

  /** The sides of match k come from two neighbouring slots of the round before, which 2(k - 1) slots precede. */
  ghost predicate HostsNeighbours(b: Bracket, before: nat, m: KoMatch, k: nat)
    requires k >= 1
  {
    exists s: nat, t: nat ::
      Neighbours(b, before, s, t, 2 * (k - 1)) &&
      m.entryA == WentOnFrom(b, before, s) && m.entryB == WentOnFrom(b, before, t)
  }

  lemma {:induction false} PairInMatch(rows: Rows, byes: Byes, entries: seq<Entry>, k: nat)
    requires RoundFits(rows, byes, SequentialPairs(entries)) && k in rows && Filled(rows[k])
    ensures k >= 1 && 2 * k <= |entries|
    ensures rows[k].entryA == Some(entries[2 * k - 2]) && rows[k].entryB == Some(entries[2 * k - 1])
  {
    var pairs := SequentialPairs(entries);
    assert RealSlot(pairs, k);
    var i :| 0 <= i < |pairs| && pairs[i].order == k && pairs[i].entryB.Some?;
    assert Fits(rows, pairs[i]);
  }

  lemma {:induction false} LaterMatchHostsNeighbours(seeded: seq<Pair>, b: Bracket, before: nat, round: nat, k: nat)
    requires Consistent(seeded, b) && before >= 1 && round == before + 1
    requires k in RowsAt(b, round) && Filled(RowsAt(b, round)[k])
    ensures k >= 1 && HostsNeighbours(b, before, RowsAt(b, round)[k], k)
  {
    PairedFromBefore(seeded, b, before, round);
    var rows, byes := RowsAt(b, before), ByesAt(b, before);
    PairInMatch(RowsAt(b, round), ByesAt(b, round), Advancers(rows, byes), k);
    NeighboursAt(b, before, 2 * k - 2);
    WentOnAt(b, before, 2 * k - 2);
    WentOnAt(b, before, 2 * k - 1);
  }

  /**
   * After every safe run, match k of a later round is played by those who came out of the (2k - 1)-th and the 2k-th
   * slot of the round before.
   */
  lemma {:induction false} NeighboursMeet(setup: Setup, b: Bracket, steps: seq<Step>, round: nat, k: nat)
    requires Initial(b) && SafeRun(setup, b, steps) && round >= 1
    requires
      var rows := RowsAt(Run(setup, b, steps), round + 1);
      k in rows && Filled(rows[k])
    ensures
      var now := Run(setup, b, steps);
      k >= 1 && HostsNeighbours(now, round, RowsAt(now, round + 1)[k], k)
  {
    RunKeepsConsistent(setup, b, steps);
    LaterMatchHostsNeighbours(Seeded(setup, Run(setup, b, steps)), Run(setup, b, steps), round, round + 1, k);
  }

  // ----- Third place -----

  /** The entry lost the match in this slot: it is one of its sides, and the other one won. */
  ghost predicate LostMatch(b: Bracket, round: nat, slot: nat, e: Entry) {
    && slot in RowsAt(b, round)
    && IsEntrant(RowsAt(b, round)[slot], e)
    && RowsAt(b, round)[slot].winner.Some? && RowsAt(b, round)[slot].winner != Some(e)
  }

  /** Two different completed matches of one round, lost by the two sides, neither of whom went on from it. */
  ghost predicate PlaysForThird(b: Bracket, round: nat, s: nat, t: nat, home: Entry, away: Entry) {
    && Complete(RowsAt(b, round)) && s != t && home != away
    && LostMatch(b, round, s, home) && LostMatch(b, round, t, away)
    && !GoesOnFrom(b, round, home) && !GoesOnFrom(b, round, away)
  }

  lemma {:induction false} LoserIsOtherSide(m: KoMatch)
    requires Filled(m) && MatchOk(m) && m.winner.Some? && m.entryA != m.entryB
    ensures Loser(m).Some? && Loser(m) != m.winner && (Loser(m) == m.entryA || Loser(m) == m.entryB)
  {
  }

  /** A loser of a complete round without repeats does not go on from it. */
  lemma {:induction false} LoserStays(b: Bracket, round: nat, slot: nat, e: Entry)
    requires RowsOk(RowsAt(b, round)) && Complete(RowsAt(b, round)) && LostMatch(b, round, slot, e)
    requires NobodyTwice(RowsAt(b, round), ByesAt(b, round))
    ensures !GoesOnFrom(b, round, e)
  {
    var rows, byes := RowsAt(b, round), ByesAt(b, round);
    assert PlaysOnce(rows, byes, slot);
    if s :| s in rows && s > 0 && rows[s].winner == Some(e) {
      assert IsEntrant(rows[s], e) && Filled(rows[s]);
      assert s == slot;
    }
  }

  lemma {:induction false} TwoLosers(b: Bracket, round: nat, s: nat, t: nat)
    requires RowsOk(RowsAt(b, round)) && Complete(RowsAt(b, round)) && b.third.Some? && Filled(b.third.value)
    requires SemifinalLosers(RowsAt(b, round), ByesAt(b, round), b.third.value, s, t)
    requires NobodyTwice(RowsAt(b, round), ByesAt(b, round))
    ensures PlaysForThird(b, round, s, t, b.third.value.entryA.value, b.third.value.entryB.value)
  {
    var rows, byes, third := RowsAt(b, round), ByesAt(b, round), b.third.value;
    assert s in rows && t in rows;
    assert PlaysOnce(rows, byes, s) && PlaysOnce(rows, byes, t);
    LoserIsOtherSide(rows[s]);
    LoserIsOtherSide(rows[t]);
    LoserStays(b, round, s, third.entryA.value);
    LoserStays(b, round, t, third.entryB.value);
  }

  /**
   * After every safe run the sides of a filled third-place match lost two different completed matches of one round,
   * and neither of them went on from it.
   */
  lemma {:induction false} ThirdPlaceIsPlayedByLosers(setup: Setup, b: Bracket, steps: seq<Step>)
    requires Initial(b) && SafeRun(setup, b, steps)
    requires Run(setup, b, steps).third.Some? && Filled(Run(setup, b, steps).third.value)
    ensures
      var now := Run(setup, b, steps);
      exists round: nat, s: nat, t: nat ::
        PlaysForThird(now, round, s, t, now.third.value.entryA.value, now.third.value.entryB.value)
  {
    var now := Run(setup, b, steps);
    RunKeepsConsistent(setup, b, steps);
    var round: nat :| ThirdFrom(now, round);
    var s, t :| SemifinalLosers(RowsAt(now, round), ByesAt(now, round), now.third.value, s, t);
    DefinedHasMatch(RowsAt(now, round));
    RoundFollows(Seeded(setup, now), now, round);
    assert round in now.rounds && RowsOk(RowsAt(now, round));
    TwoLosers(now, round, s, t);
  }

  // ----- When there is one -----

  /** Two matches whose winners, without a bye besides, are all that goes on. */
  predicate IsSemifinalRound(rows: Rows, byes: Byes) {
    AllWon(rows) && |rows.Keys| == 2 && |Advancers(rows, byes)| == 2
  }

  lemma {:induction false} SortedCount(s: set<nat>)
    ensures |Sorted(s)| == |s|
  {
    var r := Sorted(s);
    CountMembers(r);
    assert Members(r) == s;
  }

  /** A recomputation makes or fills a third-place match only where the regulation asks for one, from two semifinals. */
  lemma {:induction false} ThirdPlaceOnlyFromSemifinals(setup: Setup, b: Bracket, date: Date)
    requires RowsAllOk(b) && Progress(setup, b, date).third != b.third
    ensures
      && setup.thirdPlaceMatch && DefinedRounds(b) != {}
      && (b.third.Some? ==> b.third.value.status.Scheduled? && !Filled(b.third.value))
      && var last := MaxOf(DefinedRounds(b));
      && Complete(RowsAt(b, last)) && IsSemifinalRound(RowsAt(b, last), ByesAt(b, last))
  {
    var last := MaxOf(DefinedRounds(b));
    SortedCount(RowsAt(b, last).Keys);
  }

  /** and it does so whenever it can: the match then has both losers. */
  lemma {:induction false} ThirdPlaceFromSemifinals(setup: Setup, b: Bracket, last: nat, date: Date)
    requires RowsAllOk(b) && setup.thirdPlaceMatch && DefinedRounds(b) != {} && last == MaxOf(DefinedRounds(b))
    requires Complete(RowsAt(b, last)) && IsSemifinalRound(RowsAt(b, last), ByesAt(b, last))
    requires b.third.Some? ==> b.third.value.status.Scheduled?
    ensures Progress(setup, b, date).third.Some? && Filled(Progress(setup, b, date).third.value)
  {
    var rows, byes := RowsAt(b, last), ByesAt(b, last);
    SortedCount(rows.Keys);
    SemifinalsGivePair(rows, byes, Sorted(rows.Keys));
    assert last in DefinedRounds(b);
    AdvanceShape(setup, b, last, date);
    PlacedIsFilled(setup, b, last, date);
  }

  lemma {:induction false} PlacedIsFilled(setup: Setup, b: Bracket, last: nat, date: Date)
    requires setup.thirdPlaceMatch && AllWon(RowsAt(b, last)) && (b.third.Some? ==> b.third.value.status.Scheduled?)
    requires
      var pair := ThirdPair(RowsAt(b, last), ByesAt(b, last));
      pair.Some? && pair.value.entryB.Some?
    ensures ThirdPlace(setup, b, last, date).Some? && Filled(ThirdPlace(setup, b, last, date).value)
  {
  }

  lemma {:induction false} SemifinalsGivePair(rows: Rows, byes: Byes, slots: seq<nat>)
    requires Defined(rows) && AllWon(rows) && |Advancers(rows, byes)| == 2
    requires slots == Sorted(rows.Keys) && |slots| == 2
    ensures ThirdPair(rows, byes).Some? && ThirdPair(rows, byes).value.entryB.Some?
  {
    assert slots[0] in slots && slots[1] in slots;
    assert Filled(rows[slots[0]]) && Filled(rows[slots[1]]);
    assert Loser(rows[slots[0]]).Some? && Loser(rows[slots[1]]).Some?;
  }

  // ----- What a published bracket is filled with -----

  lemma {:induction false} PublishedPairOf(placed: map<Label, Entry>, rows: Rows, slots: seq<nat>, i: nat)
    requires (forall s | s in slots :: s in rows) && PublishedPairsFrom(placed, rows, slots).Some? && i < |slots|
    ensures |PublishedPairsFrom(placed, rows, slots).value| == |slots|
    ensures PublishedPair(placed, slots[i], rows[slots[i]]) == Some(PublishedPairsFrom(placed, rows, slots).value[i])
  {
    PublishedPairsAt(placed, rows, slots);
    var n := |slots| - 1;
    if i < n {
      PublishedPairOf(placed, rows, slots[..n], i);
    } else {
      PublishedPairsAt(placed, rows, slots[..n]);
    }
  }

  /** The labels of the match name two entries. */
  predicate Resolved(placed: map<Label, Entry>, m: KoMatch) {
    m.labelA.Some? && m.labelA.value in placed && m.labelB.Some? && m.labelB.value in placed
  }

  /** When a publication resolves, every scheduled match gets exactly the two entries its own labels name. */
  lemma {:induction false} PublishedMatchHostsItsLabels(setup: Setup, b: Bracket, date: Date, s: nat)
    requires DefinedRounds(b) == {} && b.source.Classified? && PublishedPairs(b.source, RowsAt(b, 1)).Some?
    requires s in RowsAt(b, 1) && RowsAt(b, 1)[s].status.Scheduled?
    ensures
      var before, after := RowsAt(b, 1)[s], RowsAt(Progress(setup, b, date), 1);
      && Resolved(b.source.placed, before) && s in after
      && after[s].entryA == Some(b.source.placed[before.labelA.value])
      && after[s].entryB == Some(b.source.placed[before.labelB.value])
      && after[s].scheduledAt == before.scheduledAt && after[s].venue == before.venue
  {
    PublicationIsUsed(setup, b, date);
    HostsItsLabels(b.source, RowsAt(b, 1), s, date);
  }

  lemma {:induction false} PublicationSeeds(setup: Setup, b: Bracket)
    requires PublishedPairs(b.source, RowsAt(b, 1)).Some?
    ensures !b.source.Pending? && FirstPairs(setup, b) == PublishedPairs(b.source, RowsAt(b, 1)).value
    ensures HasMatch(FirstPairs(setup, b))
  {
    PublishedForEverySlot(b.source, RowsAt(b, 1));
    assert FirstPairs(setup, b)[0].entryB.Some?;
  }

  lemma {:induction false} PublicationIsUsed(setup: Setup, b: Bracket, date: Date)
    requires DefinedRounds(b) == {} && PublishedPairs(b.source, RowsAt(b, 1)).Some?
    ensures
      RowsAt(Progress(setup, b, date), 1) ==
      FillRound(RowsAt(b, 1), PublishedPairs(b.source, RowsAt(b, 1)).value, date)
  {
    PublicationSeeds(setup, b);
    assert Progress(setup, b, date) == WithRound(b, 1, FirstPairs(setup, b), date);
  }

  lemma {:induction false} HostsItsLabels(source: Source, rows: Rows, s: nat, date: Date)
    requires PublishedPairs(source, rows).Some? && s in rows && rows[s].status.Scheduled?
    ensures
      var after := FillRound(rows, PublishedPairs(source, rows).value, date);
      && Resolved(source.placed, rows[s]) && s in after
      && after[s].entryA == Some(source.placed[rows[s].labelA.value])
      && after[s].entryB == Some(source.placed[rows[s].labelB.value])
      && after[s].scheduledAt == rows[s].scheduledAt && after[s].venue == rows[s].venue
  {
    var slots, pairs := Sorted(rows.Keys), PublishedPairs(source, rows).value;
    assert s in slots;
    var i :| 0 <= i < |slots| && slots[i] == s;
    PublishedPairOf(source.placed, rows, slots, i);
    PairResolves(source.placed, s, rows[s], pairs[i]);
    PublishedForEverySlot(source, rows);
    FilledFromPair(rows, pairs, i, date);
  }

  lemma {:induction false} FilledFromPair(rows: Rows, pairs: seq<Pair>, i: nat, date: Date)
    requires InOrder(pairs) && i < |pairs| && pairs[i].entryB.Some?
    requires pairs[i].order in rows && rows[pairs[i].order].status.Scheduled?
    ensures
      var s, after := pairs[i].order, FillRound(rows, pairs, date);
      && s in after && after[s].entryA == Some(pairs[i].entryA) && after[s].entryB == pairs[i].entryB
      && after[s].scheduledAt == rows[s].scheduledAt && after[s].venue == rows[s].venue
  {
    FillRoundAt(rows, pairs, date, i);
  }

  lemma {:induction false} PairResolves(placed: map<Label, Entry>, slot: nat, m: KoMatch, pair: Pair)
    requires PublishedPair(placed, slot, m) == Some(pair)
    ensures Resolved(placed, m) && pair.order == slot && pair.entryA == placed[m.labelA.value]
    ensures pair.entryB == Some(placed[m.labelB.value])
  {
  }

  // ----- When the tournament is over -----

  predicate IsWon(m: KoMatch) {
    (m.status.Finished? || m.status.Walkover?) && m.winner.Some?
  }

  /** Every match of the round is officially won, and it has one slot. */
  ghost predicate IsOver(b: Bracket, last: nat) {
    && (forall s | s in RowsAt(b, last) :: IsWon(RowsAt(b, last)[s]))
    && forall s, t | s in RowsAt(b, last).Keys + ByesAt(b, last).Keys && t in RowsAt(b, last).Keys + ByesAt(b, last).Keys &&
         s > 0 && t > 0 :: s == t
  }

  lemma {:induction false} OneSlotExactly(rows: Rows, byes: Byes)
    ensures
      |SlotOrders(rows, byes)| <= 1 <==>
      forall s, t | s in rows.Keys + byes.Keys && t in rows.Keys + byes.Keys && s > 0 && t > 0 :: s == t
  {
    var slots := SlotOrders(rows, byes);
    if |slots| > 1 {
      assert slots[0] in slots && slots[1] in slots && slots[0] < slots[1];
    } else {
      forall s, t | s in rows.Keys + byes.Keys && t in rows.Keys + byes.Keys && s > 0 && t > 0 ensures s == t {
        assert s in slots && t in slots;
      }
    }
  }

  /**
   * A recomputation closes the tournament exactly when the last round that is all filled is over, with one slot, and
   * no third-place match is waiting; it puts it on its way when it makes a round; and otherwise leaves its status.
   */
  lemma {:induction false} ClosesExactly(setup: Setup, b: Bracket, status: TournamentStatus, last: nat)
    requires DefinedRounds(b) != {} && last == MaxOf(DefinedRounds(b))
    ensures
      StatusAfter(setup, b, status) ==
      if !(forall s | s in RowsAt(b, last) :: IsWon(RowsAt(b, last)[s])) then status
      else if !IsOver(b, last) then Ongoing
      else if b.third.None? || b.third.value.status.Finished? || b.third.value.status.Walkover? then Closed
      else status
  {
    OneSlotExactly(RowsAt(b, last), ByesAt(b, last));
  }
}
