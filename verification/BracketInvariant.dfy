/** The bracket invariant, and why one recomputation keeps it. */
module BracketInvariant {
  import opened Wrappers
  import opened Entries
  import opened NatSets
  import opened Statuses
  import opened Seeding
  import opened Knockout
  import opened KnockoutPhase

  // ----- The invariant -----

  /** A filled match has lost its labels; only an official match has a winner, who is an entrant. */
  predicate MatchOk(m: KoMatch) {
    && (Filled(m) ==> m.labelA.None? && m.labelB.None?)
    && (m.winner.Some? ==> Official(m.status) && (m.winner == m.entryA || m.winner == m.entryB))
  }

  predicate RowsOk(rows: Rows) {
    forall s | s in rows :: s >= 1 && MatchOk(rows[s])
  }

  predicate Started(rows: Rows) {
    exists s :: s in rows && Filled(rows[s])
  }

  predicate Hosts(rows: Rows, pair: Pair) {
    pair.order in rows && rows[pair.order].entryA == Some(pair.entryA) && rows[pair.order].entryB == pair.entryB
  }

  ghost predicate RealSlot(pairs: seq<Pair>, slot: nat) {
    exists i :: 0 <= i < |pairs| && pairs[i].order == slot && pairs[i].entryB.Some?
  }

  predicate InOrder(pairs: seq<Pair>) {
    forall i, j | 0 <= i < j < |pairs| :: pairs[i].order < pairs[j].order
  }

  predicate ProperPairs(pairs: seq<Pair>) {
    InOrder(pairs) && forall i | 0 <= i < |pairs| :: pairs[i].order >= 1
  }

  /** The filled matches and the byes of a round are exactly those of this pairing. */
  ghost predicate RoundIs(rows: Rows, byes: Byes, pairs: seq<Pair>) {
    && ProperPairs(pairs)
    && byes == ByesOf(pairs)
    && (forall i | 0 <= i < |pairs| && pairs[i].entryB.Some? :: Hosts(rows, pairs[i]))
    && (forall s | s in rows && Filled(rows[s]) :: RealSlot(pairs, s))
  }

  /** The slot of the pair has a match, which hosts the pair or lacks a participant. */
  predicate Fits(rows: Rows, pair: Pair) {
    pair.order in rows && (Filled(rows[pair.order]) ==> Hosts(rows, pair))
  }

  /** The byes are those of this pairing, and every filled match is where the pairing puts it. */
  ghost predicate RoundFits(rows: Rows, byes: Byes, pairs: seq<Pair>) {
    && ProperPairs(pairs)
    && byes == ByesOf(pairs)
    && (forall i | 0 <= i < |pairs| && pairs[i].entryB.Some? :: Fits(rows, pairs[i]))
    && (forall s | s in rows && Filled(rows[s]) :: RealSlot(pairs, s))
  }

  /** Once every match is filled, nothing is missing. */
  lemma {:induction false} DefinedRoundIs(rows: Rows, byes: Byes, pairs: seq<Pair>)
    requires Defined(rows) && RoundFits(rows, byes, pairs)
    ensures RoundIs(rows, byes, pairs)
  {
    forall i | 0 <= i < |pairs| && pairs[i].entryB.Some? ensures Hosts(rows, pairs[i]) {
      assert Fits(rows, pairs[i]);
    }
  }

  /** A pairing the first round may have: nobody twice, and from the seeding while it is unfinished. */
  ghost predicate FirstRoundFrom(seeded: seq<Pair>, b: Bracket, pairs: seq<Pair>) {
    && NoRepeats(pairs)
    && RoundFits(RowsAt(b, 1), ByesAt(b, 1), pairs)
    && (Defined(RowsAt(b, 1)) || (!b.source.Pending? && pairs == seeded))
  }

  /** A later round pairs consecutively, in slot order, who came through the round before. */
  ghost predicate LaterRound(b: Bracket, round: nat)
    requires round >= 1
  {
    && Complete(RowsAt(b, round - 1))
    && RoundFits(RowsAt(b, round), ByesAt(b, round),
                 SequentialPairs(Advancers(RowsAt(b, round - 1), ByesAt(b, round - 1))))
  }

  /** Two matches and no other slot; `third` holds their losers in slot order. */
  ghost predicate SemifinalLosers(rows: Rows, byes: Byes, third: KoMatch, first: nat, second: nat) {
    && first < second
    && rows.Keys == {first, second}
    && (forall s | s in byes && s > 0 :: s == first || s == second)
    && third.entryA == Loser(rows[first])
    && third.entryB == Loser(rows[second])
  }

  /** The third-place match holds the losers of two completed semifinals, which a final follows. */
  ghost predicate ThirdFrom(b: Bracket, round: nat) {
    && Complete(RowsAt(b, round))
    && RowsAt(b, round + 1) != map[]
    && b.third.Some?
    && exists s, t :: SemifinalLosers(RowsAt(b, round), ByesAt(b, round), b.third.value, s, t)
  }

  ghost predicate SourceOk(source: Source) {
    !source.Pending? ==> Distinct(source.slots)
  }

  ghost predicate RowsAllOk(b: Bracket) {
    && (forall r | r in b.rounds :: r >= 1 && RowsOk(b.rounds[r]))
    && (b.third.Some? ==> MatchOk(b.third.value))
  }

  ghost predicate FirstOk(seeded: seq<Pair>, b: Bracket) {
    Started(RowsAt(b, 1)) ==> exists pairs :: FirstRoundFrom(seeded, b, pairs)
  }

  ghost predicate LaterOk(b: Bracket, round: nat) {
    round >= 2 && Started(RowsAt(b, round)) ==> LaterRound(b, round)
  }

  ghost predicate ThirdOk(b: Bracket) {
    b.third.Some? && Filled(b.third.value) ==> exists r :: ThirdFrom(b, r)
  }

  ghost predicate Consistent(seeded: seq<Pair>, b: Bracket) {
    && SourceOk(b.source)
    && RowsAllOk(b)
    && FirstOk(seeded, b)
    && (forall r :: LaterOk(b, r))
    && ThirdOk(b)
  }

  // ----- Filling a round -----

  lemma {:induction false} FillRoundElsewhere(rows: Rows, pairs: seq<Pair>, date: Date, slot: nat)
    requires !RealSlot(pairs, slot)
    ensures MatchAt(FillRound(rows, pairs, date), slot) == MatchAt(rows, slot)
  {
    if pairs != [] {
      var n := |pairs| - 1;
      assert forall i | 0 <= i < n :: pairs[..n][i] == pairs[i];
      FillRoundElsewhere(rows, pairs[..n], date, slot);
    }
  }

  lemma {:induction false} FillRoundAt(rows: Rows, pairs: seq<Pair>, date: Date, i: nat)
    requires InOrder(pairs) && i < |pairs| && pairs[i].entryB.Some?
    ensures
      MatchAt(FillRound(rows, pairs, date), pairs[i].order) ==
      Some(FillMatch(MatchAt(rows, pairs[i].order), pairs[i], date))
  {
    var n := |pairs| - 1;
    if i == n {
      FillRoundElsewhere(rows, pairs[..n], date, pairs[i].order);
    } else {
      FillRoundAt(rows, pairs[..n], date, i);
    }
  }

  lemma {:induction false} ByesOfAt(pairs: seq<Pair>, slot: nat)
    requires InOrder(pairs)
    ensures slot in ByesOf(pairs) <==> exists i :: 0 <= i < |pairs| && pairs[i].order == slot && pairs[i].entryB.None?
    ensures forall i | 0 <= i < |pairs| && pairs[i].order == slot && pairs[i].entryB.None? ::
      slot in ByesOf(pairs) && ByesOf(pairs)[slot] == pairs[i].entryA
  {
    if pairs != [] {
      var n := |pairs| - 1;
      ByesOfAt(pairs[..n], slot);
      assert forall i | 0 <= i < n :: pairs[..n][i] == pairs[i];
      if slot in ByesOf(pairs) && slot in ByesOf(pairs[..n]) {
        var i :| 0 <= i < n && pairs[..n][i].order == slot && pairs[..n][i].entryB.None?;
        assert pairs[i].order == slot;
      }
    }
  }

  /** A filled match keeps fitting; one that could not be filled still lacks its participants. */
  lemma {:induction false} FillMatchFits(rows: Rows, pair: Pair, date: Date)
    requires pair.entryB.Some? && pair.order >= 1 && (pair.order in rows ==> MatchOk(rows[pair.order]))
    requires pair.order in rows && Filled(rows[pair.order]) ==> Hosts(rows, pair)
    ensures
      var after := FillMatch(MatchAt(rows, pair.order), pair, date);
      MatchOk(after) && (Filled(after) ==> after.entryA == Some(pair.entryA) && after.entryB == pair.entryB)
  {
  }

  /** After filling, every filled match is where the pairing puts it, provided those filled before were. */
  lemma {:induction false} FillMakesRound(rows: Rows, byes: Byes, pairs: seq<Pair>, date: Date)
    requires RowsOk(rows) && ProperPairs(pairs)
    requires Started(rows) ==> RoundFits(rows, byes, pairs)
    ensures RowsOk(FillRound(rows, pairs, date))
    ensures RoundFits(FillRound(rows, pairs, date), ByesOf(pairs), pairs)
  {
    var after := FillRound(rows, pairs, date);
    forall i | 0 <= i < |pairs| && pairs[i].entryB.Some? ensures Fits(after, pairs[i]) && MatchOk(after[pairs[i].order]) {
      FillRoundAt(rows, pairs, date, i);
      assert pairs[i].order in rows && Filled(rows[pairs[i].order]) ==> Fits(rows, pairs[i]);
      FillMatchFits(rows, pairs[i], date);
    }
    forall s | s in after ensures s >= 1 && MatchOk(after[s]) && (Filled(after[s]) ==> RealSlot(pairs, s)) {
      if RealSlot(pairs, s) {
        var i :| 0 <= i < |pairs| && pairs[i].order == s && pairs[i].entryB.Some?;
      } else {
        FillRoundElsewhere(rows, pairs, date, s);
      }
    }
  }

  // ----- A completed round as a played round -----

  function Orders(pairs: seq<Pair>): seq<nat> {
    if pairs == [] then [] else Orders(pairs[..|pairs| - 1]) + [pairs[|pairs| - 1].order]
  }

  lemma {:induction false} OrdersAt(pairs: seq<Pair>)
    ensures |Orders(pairs)| == |pairs|
    ensures forall i | 0 <= i < |pairs| :: Orders(pairs)[i] == pairs[i].order
  {
    if pairs != [] {
      OrdersAt(pairs[..|pairs| - 1]);
    }
  }

  /** The slots the progression walks through are the slots of the pairing, in order. */
  lemma {:induction false} SlotsAreOrders(rows: Rows, byes: Byes, pairs: seq<Pair>)
    requires RowsOk(rows) && Defined(rows) && RoundIs(rows, byes, pairs)
    ensures SlotOrders(rows, byes) == Orders(pairs)
  {
    OrdersAt(pairs);
    forall s ensures s in Orders(pairs) <==> s in SlotOrders(rows, byes) {
      ByesOfAt(pairs, s);
      if s in Orders(pairs) {
        var i :| 0 <= i < |pairs| && Orders(pairs)[i] == s;
        assert pairs[i].order == s;
        if pairs[i].entryB.Some? {
          assert Hosts(rows, pairs[i]);
        }
      }
      if s in rows.Keys + byes.Keys {
        if s in rows {
          assert RealSlot(pairs, s);
        }
        var i :| 0 <= i < |pairs| && pairs[i].order == s;
        assert Orders(pairs)[i] == s;
      }
    }
    AscendingUnique(SlotOrders(rows, byes), Orders(pairs));
  }

  lemma {:induction false} SlotOfPair(rows: Rows, byes: Byes, pairs: seq<Pair>, i: nat)
    requires RowsOk(rows) && Complete(rows) && RoundIs(rows, byes, pairs) && i < |pairs|
    ensures pairs[i].order in rows.Keys + byes.Keys && GoesOn(pairs[i], AdvancerAt(rows, byes, pairs[i].order))
  {
    ByesOfAt(pairs, pairs[i].order);
    if pairs[i].entryB.Some? {
      assert Hosts(rows, pairs[i]);
    }
  }

  /** Slot by slot, an entrant of the pair goes on. */
  lemma {:induction false} CompletedRoundIsPlayed(rows: Rows, byes: Byes, pairs: seq<Pair>)
    requires RowsOk(rows) && Complete(rows) && RoundFits(rows, byes, pairs)
    ensures Played(Round(pairs, Advancers(rows, byes)))
  {
    DefinedRoundIs(rows, byes, pairs);
    SlotsAreOrders(rows, byes, pairs);
    OrdersAt(pairs);
    var ahead := Advancers(rows, byes);
    forall i | 0 <= i < |pairs| ensures GoesOn(pairs[i], ahead[i]) {
      SlotOfPair(rows, byes, pairs, i);
    }
  }

  lemma {:induction false} NextPairing(rows: Rows, byes: Byes, pairs: seq<Pair>)
    requires RowsOk(rows) && Complete(rows) && RoundFits(rows, byes, pairs) && NoRepeats(pairs)
    ensures NoRepeats(SequentialPairs(Advancers(rows, byes)))
  {
    CompletedRoundIsPlayed(rows, byes, pairs);
    AdvancersDistinct(pairs, Advancers(rows, byes));
    SequentialPairsUseEachOnce(Advancers(rows, byes));
  }

  /** Every started round has a pairing without repeats, taken from the round before it. */
  lemma {:induction false} RoundPairing(seeded: seq<Pair>, b: Bracket, round: nat) returns (pairs: seq<Pair>)
    requires Consistent(seeded, b) && Started(RowsAt(b, round))
    ensures round >= 1 && NoRepeats(pairs) && RoundFits(RowsAt(b, round), ByesAt(b, round), pairs)
    ensures round == 1 ==> FirstRoundFrom(seeded, b, pairs)
    ensures round >= 2 ==>
      && Complete(RowsAt(b, round - 1))
      && pairs == SequentialPairs(Advancers(RowsAt(b, round - 1), ByesAt(b, round - 1)))
  {
    assert round in b.rounds;
    if round == 1 {
      assert FirstOk(seeded, b);
      pairs :| FirstRoundFrom(seeded, b, pairs);
    } else {
      assert LaterOk(b, round);
      var before, byes := RowsAt(b, round - 1), ByesAt(b, round - 1);
      var prior := RoundPairing(seeded, b, round - 1);
      NextPairing(before, byes, prior);
      pairs := SequentialPairs(Advancers(before, byes));
    }
  }

  // ----- One recomputation keeps the invariant -----

  lemma {:induction false} FirstOkSame(seeded: seq<Pair>, b: Bracket, b': Bracket)
    requires FirstOk(seeded, b) && b'.source == b.source
    requires RowsAt(b', 1) == RowsAt(b, 1) && ByesAt(b', 1) == ByesAt(b, 1)
    ensures FirstOk(seeded, b')
  {
    if Started(RowsAt(b, 1)) {
      var pairs :| FirstRoundFrom(seeded, b, pairs);
      assert FirstRoundFrom(seeded, b', pairs);
    }
  }

  lemma {:induction false} LaterOkSame(b: Bracket, b': Bracket, round: nat)
    requires LaterOk(b, round)
    requires RowsAt(b', round) == RowsAt(b, round) && ByesAt(b', round) == ByesAt(b, round)
    requires round >= 1 ==> RowsAt(b', round - 1) == RowsAt(b, round - 1) && ByesAt(b', round - 1) == ByesAt(b, round - 1)
    ensures LaterOk(b', round)
  {
  }

  lemma {:induction false} ThirdFromSame(b: Bracket, b': Bracket, round: nat)
    requires ThirdFrom(b, round) && b'.third == b.third && SameRound(b, b', round) && RowsAt(b', round + 1) != map[]
    ensures ThirdFrom(b', round)
  {
  }

  /** Rounds beyond the one after the last defined round have not started. */
  lemma {:induction false} NotStartedBeyond(b: Bracket, last: nat, round: nat)
    requires LaterOk(b, round) && round > last + 1 && round >= 2
    requires forall r | r in DefinedRounds(b) :: r <= last
    ensures !Started(RowsAt(b, round))
  {
    assert Started(RowsAt(b, round)) ==> round - 1 in DefinedRounds(b);
  }

  lemma {:induction false} SequentialPairsProper(entries: seq<Entry>)
    ensures ProperPairs(SequentialPairs(entries))
    ensures |entries| >= 2 ==> SequentialPairs(entries) != [] && SequentialPairs(entries)[0].entryB.Some?
  {
  }

  /** b' is b with one round created or filled from these pairs. */
  ghost predicate AddsRound(b: Bracket, b': Bracket, round: nat, pairs: seq<Pair>, date: Date) {
    && b'.source == b.source
    && RowsAt(b', round) == FillRound(RowsAt(b, round), pairs, date)
    && ByesAt(b', round) == ByesOf(pairs)
    && forall r: nat | r != round :: SameRound(b, b', r)
  }

  predicate SameRound(b: Bracket, b': Bracket, round: nat) {
    RowsAt(b', round) == RowsAt(b, round) && ByesAt(b', round) == ByesAt(b, round)
  }

  lemma {:induction false} WithRoundAdds(b: Bracket, round: nat, pairs: seq<Pair>, date: Date, third: Option<KoMatch>)
    ensures AddsRound(b, WithRound(b, round, pairs, date).(third := third), round, pairs, date)
  {
  }

  lemma {:induction false} RowsAllOkAfter(b: Bracket, b': Bracket, round: nat)
    requires RowsAllOk(b) && round >= 1 && RowsOk(RowsAt(b', round)) && (b'.third.Some? ==> MatchOk(b'.third.value))
    requires forall r: nat | r != round :: SameRound(b, b', r)
    requires forall r | r in b'.rounds :: r in b.rounds || r == round
    ensures RowsAllOk(b')
  {
    forall r | r in b'.rounds ensures r >= 1 && RowsOk(b'.rounds[r]) {
      if r != round {
        assert SameRound(b, b', r) && b'.rounds[r] == RowsAt(b', r);
      } else {
        assert b'.rounds[r] == RowsAt(b', r);
      }
    }
  }

  /** The next round holds the winners and byes of the completed one, paired consecutively. */
  lemma {:induction false} NextRoundIsLater(b: Bracket, b': Bracket, last: nat, date: Date)
    requires LaterOk(b, last + 1) && RowsOk(RowsAt(b, last + 1))
    requires last >= 1 && Complete(RowsAt(b, last))
    requires |Advancers(RowsAt(b, last), ByesAt(b, last))| > 1
    requires AddsRound(b, b', last + 1, SequentialPairs(Advancers(RowsAt(b, last), ByesAt(b, last))), date)
    ensures LaterRound(b', last + 1) && RowsAt(b', last + 1) != map[] && RowsOk(RowsAt(b', last + 1))
  {
    var winners := Advancers(RowsAt(b, last), ByesAt(b, last));
    var pairs := SequentialPairs(winners);
    assert SameRound(b, b', last);
    SequentialPairsProper(winners);
    FillMakesRound(RowsAt(b, last + 1), ByesAt(b, last + 1), pairs, date);
    assert Fits(RowsAt(b', last + 1), pairs[0]);
  }

  /** Every other round keeps its pairing, or has not started. */
  lemma {:induction false} OtherRoundsStay(b: Bracket, b': Bracket, last: nat, r: nat)
    requires LaterOk(b, r) && r != last + 1
    requires forall q | q in DefinedRounds(b) :: q <= last
    requires forall q: nat | q != last + 1 :: SameRound(b, b', q)
    ensures LaterOk(b', r)
  {
    assert SameRound(b, b', r);
    if r > last + 1 && r >= 2 {
      NotStartedBeyond(b, last, r);
    } else if r >= 1 {
      assert SameRound(b, b', r - 1);
      LaterOkSame(b, b', r);
    }
  }

  lemma {:induction false} ThirdSemifinalsBefore(b: Bracket, last: nat, round: nat)
    requires ThirdFrom(b, round) && forall r | r in DefinedRounds(b) :: r <= last
    ensures round <= last
  {
    assert round in DefinedRounds(b);
  }

  /** A third-place match that was filled before stays explained by its own semifinals. */
  lemma {:induction false} FilledThirdStays(b: Bracket, b': Bracket, last: nat)
    requires ThirdOk(b) && b'.third == b.third
    requires forall r | r in DefinedRounds(b) :: r <= last
    requires forall q: nat | q != last + 1 :: SameRound(b, b', q)
    requires RowsAt(b', last + 1) != map[]
    ensures ThirdOk(b')
  {
    if b.third.Some? && Filled(b.third.value) {
      var r: nat :| ThirdFrom(b, r);
      ThirdSemifinalsBefore(b, last, r);
      assert SameRound(b, b', r) && (SameRound(b, b', r + 1) || r == last);
      ThirdFromSame(b, b', r);
    }
  }

  lemma {:induction false} ThirdPairIsLosers(rows: Rows, byes: Byes, existing: Option<KoMatch>, date: Date)
    requires RowsOk(rows) && AllWon(rows) && ThirdPair(rows, byes).Some?
    requires existing.Some? ==> MatchOk(existing.value) && !Filled(existing.value)
    ensures
      var third := FillThird(existing, ThirdPair(rows, byes).value, date);
      MatchOk(third) && (Filled(third) ==> exists s, t :: SemifinalLosers(rows, byes, third, s, t))
  {
    var slots := Sorted(rows.Keys);
    TwoMatchesNoOthers(rows.Keys, byes, set s | s in rows.Keys + byes.Keys && s > 0);
    ThirdHoldsPair(existing, ThirdPair(rows, byes).value, date);
    var third := FillThird(existing, ThirdPair(rows, byes).value, date);
    assert Filled(third) ==> SemifinalLosers(rows, byes, third, slots[0], slots[1]);
  }

  /** Two matches among two advancing slots leave no bye elsewhere. */
  lemma {:induction false} TwoMatchesNoOthers(matches: set<nat>, byes: Byes, all: set<nat>)
    requires |Sorted(matches)| == 2 && |Sorted(all)| == 2 && matches <= all
    requires forall s | s in byes && s > 0 :: s in all
    ensures
      var slots := Sorted(matches);
      slots[0] < slots[1] && matches == {slots[0], slots[1]} &&
      forall s | s in byes && s > 0 :: s == slots[0] || s == slots[1]
  {
    TwoOfTwo(matches, all);
  }

  lemma {:induction false} TwoOfTwo(some: set<nat>, all: set<nat>)
    requires |Sorted(some)| == 2 && |Sorted(all)| == 2 && some <= all
    ensures Sorted(some)[0] < Sorted(some)[1] && some == all == {Sorted(some)[0], Sorted(some)[1]}
  {
    SortedPair(some);
    SortedPair(all);
    assert Sorted(some)[0] in all && Sorted(some)[1] in all;
  }

  lemma {:induction false} ThirdHoldsPair(existing: Option<KoMatch>, pair: Pair, date: Date)
    requires pair.entryB.Some? && (existing.Some? ==> MatchOk(existing.value) && !Filled(existing.value))
    ensures
      var third := FillThird(existing, pair, date);
      MatchOk(third) && (Filled(third) ==> third.entryA == Some(pair.entryA) && third.entryB == pair.entryB)
  {
  }

  lemma {:induction false} ThirdAfterAdvance(setup: Setup, b: Bracket, b': Bracket, last: nat, date: Date)
    requires ThirdOk(b) && (b.third.Some? ==> MatchOk(b.third.value)) && RowsOk(RowsAt(b, last))
    requires Complete(RowsAt(b, last)) && b'.third == ThirdPlace(setup, b, last, date)
    requires forall r | r in DefinedRounds(b) :: r <= last
    requires forall q: nat | q != last + 1 :: SameRound(b, b', q)
    requires RowsAt(b', last + 1) != map[]
    ensures ThirdOk(b') && (b'.third.Some? ==> MatchOk(b'.third.value))
  {
    if b'.third == b.third {
      FilledThirdStays(b, b', last);
    } else {
      assert SameRound(b, b', last);
      ThirdPairIsLosers(RowsAt(b, last), ByesAt(b, last), b.third, date);
      assert Filled(b'.third.value) ==> ThirdFrom(b', last);
    }
  }

  /** The last defined round gives rise to the next one; everything else stays. */
  lemma {:induction false} NextRoundKeepsLaterOk(b: Bracket, b': Bracket, last: nat, date: Date)
    requires (forall r: nat :: LaterOk(b, r)) && RowsOk(RowsAt(b, last + 1))
    requires last >= 1 && forall r | r in DefinedRounds(b) :: r <= last
    requires Complete(RowsAt(b, last)) && |Advancers(RowsAt(b, last), ByesAt(b, last))| > 1
    requires AddsRound(b, b', last + 1, SequentialPairs(Advancers(RowsAt(b, last), ByesAt(b, last))), date)
    ensures RowsAt(b', last + 1) != map[] && RowsOk(RowsAt(b', last + 1))
    ensures forall r: nat :: LaterOk(b', r)
  {
    NextRoundIsLater(b, b', last, date);
    OtherRoundsLater(b, b', last);
  }

  lemma {:induction false} OtherRoundsLater(b: Bracket, b': Bracket, last: nat)
    requires (forall r: nat :: LaterOk(b, r)) && LaterOk(b', last + 1)
    requires forall q | q in DefinedRounds(b) :: q <= last
    requires forall q: nat | q != last + 1 :: SameRound(b, b', q)
    ensures forall r: nat :: LaterOk(b', r)
  {
    forall r: nat | r != last + 1 ensures LaterOk(b', r) {
      assert LaterOk(b, r);
      OtherRoundsStay(b, b', last, r);
    }
  }

  lemma {:induction false} NextRoundKeepsConsistent(
      seeded: seq<Pair>, setup: Setup, b: Bracket, b': Bracket, last: nat, date: Date)
    requires Consistent(seeded, b) && last in DefinedRounds(b) && forall r | r in DefinedRounds(b) :: r <= last
    requires Complete(RowsAt(b, last)) && |Advancers(RowsAt(b, last), ByesAt(b, last))| > 1
    requires AddsRound(b, b', last + 1, SequentialPairs(Advancers(RowsAt(b, last), ByesAt(b, last))), date)
    requires b'.third == ThirdPlace(setup, b, last, date) && b'.rounds.Keys == b.rounds.Keys + {last + 1}
    ensures Consistent(seeded, b')
  {
    assert last >= 1 && last in b.rounds;
    NextRoundKeepsLaterOk(b, b', last, date);
    assert SameRound(b, b', 1);
    FirstOkSame(seeded, b, b');
    ThirdAfterAdvance(setup, b, b', last, date);
    RowsAllOkAfter(b, b', last + 1);
  }

  predicate Advances(b: Bracket, last: nat) {
    Complete(RowsAt(b, last)) && |Advancers(RowsAt(b, last), ByesAt(b, last))| > 1
  }

  lemma {:induction false} AdvanceShape(setup: Setup, b: Bracket, last: nat, date: Date)
    requires Defined(RowsAt(b, last))
    ensures
      var b' := Advance(setup, b, last, date);
      if Advances(b, last) then
        && AddsRound(b, b', last + 1, SequentialPairs(Advancers(RowsAt(b, last), ByesAt(b, last))), date)
        && b'.third == ThirdPlace(setup, b, last, date)
        && b'.rounds.Keys == b.rounds.Keys + {last + 1}
      else
        b' == b
  {
    if Advances(b, last) {
      var pairs := SequentialPairs(Advancers(RowsAt(b, last), ByesAt(b, last)));
      WithRoundAdds(b, last + 1, pairs, date, ThirdPlace(setup, b, last, date));
    }
  }

  lemma {:induction false} AdvanceKeepsConsistent(seeded: seq<Pair>, setup: Setup, b: Bracket, last: nat, date: Date)
    requires Consistent(seeded, b)
    requires last in DefinedRounds(b) && forall r | r in DefinedRounds(b) :: r <= last
    ensures Consistent(seeded, Advance(setup, b, last, date))
  {
    AdvanceShape(setup, b, last, date);
    if Advances(b, last) {
      NextRoundKeepsConsistent(seeded, setup, b, Advance(setup, b, last, date), last, date);
    }
  }

  // ----- The first round -----

  function Seeded(setup: Setup, b: Bracket): seq<Pair> {
    if b.source.Pending? then [] else SeedPairs(b.source.slots, setup.crossing)
  }

  lemma {:induction false} SeededProper(setup: Setup, b: Bracket)
    requires SourceOk(b.source)
    ensures ProperPairs(Seeded(setup, b)) && NoRepeats(Seeded(setup, b))
  {
    if !b.source.Pending? && |b.source.slots| >= 2 {
      if setup.crossing.Sequential? {
        SequentialPairsUseEachOnce(b.source.slots);
      } else {
        StandardUsesEachOnce(b.source.slots);
        StandardSeeding(b.source.slots);
      }
    }
  }

  lemma {:induction false} PublishedPairsAt(placed: map<Label, Entry>, rows: Rows, slots: seq<nat>)
    requires (forall s | s in slots :: s in rows) && PublishedPairsFrom(placed, rows, slots).Some?
    ensures
      var pairs := PublishedPairsFrom(placed, rows, slots).value;
      && |pairs| == |slots|
      && forall i | 0 <= i < |slots| ::
           && pairs[i].order == slots[i] && pairs[i].entryB.Some?
           && rows[slots[i]].labelA.Some?
  {
    if slots != [] {
      PublishedPairsAt(placed, rows, slots[..|slots| - 1]);
    }
  }

  /** The published pairs are one for every slot, all of them matches. */
  lemma {:induction false} PublishedForEverySlot(source: Source, rows: Rows)
    requires PublishedPairs(source, rows).Some?
    ensures
      var pairs := PublishedPairs(source, rows).value;
      && InOrder(pairs) && pairs != []
      && (forall i | 0 <= i < |pairs| :: pairs[i].entryB.Some? && pairs[i].order in rows)
      && (forall s | s in rows :: RealSlot(pairs, s))
  {
    var slots, pairs := Sorted(rows.Keys), PublishedPairs(source, rows).value;
    PublishedPairsAt(source.placed, rows, slots);
    EverySlotPaired(rows.Keys, slots, pairs);
    var s :| s in rows;
    assert RealSlot(pairs, s);
  }

  lemma {:induction false} EverySlotPaired(all: set<nat>, slots: seq<nat>, pairs: seq<Pair>)
    requires (forall s :: s in slots <==> s in all) && Ascending(slots) && |pairs| == |slots|
    requires forall i | 0 <= i < |slots| :: pairs[i].order == slots[i] && pairs[i].entryB.Some?
    ensures InOrder(pairs)
    ensures forall i | 0 <= i < |pairs| :: pairs[i].entryB.Some? && pairs[i].order in all
    ensures forall s | s in all :: RealSlot(pairs, s)
  {
    forall s | s in all ensures RealSlot(pairs, s) {
      assert s in slots;
      var i :| 0 <= i < |slots| && slots[i] == s;
      assert pairs[i].order == s;
    }
    forall i | 0 <= i < |pairs| ensures pairs[i].order in all {
      assert slots[i] in slots;
    }
  }

  /** A published pairing applies only while no label has been replaced, and then covers every slot. */
  lemma {:induction false} PublishedCoversRound(source: Source, rows: Rows)
    requires RowsOk(rows) && PublishedPairs(source, rows).Some?
    ensures
      var pairs := PublishedPairs(source, rows).value;
      && !Started(rows) && ProperPairs(pairs) && NoRepeats(pairs)
      && (forall i | 0 <= i < |pairs| :: pairs[i].entryB.Some?)
      && (forall s | s in rows :: RealSlot(pairs, s))
      && (forall i | 0 <= i < |pairs| :: pairs[i].order in rows)
      && pairs != []
  {
    PublishedForEverySlot(source, rows);
    LabelsComplete(source, rows);
  }

  lemma {:induction false} LabelsComplete(source: Source, rows: Rows)
    requires PublishedPairs(source, rows).Some?
    ensures forall s | s in rows :: rows[s].labelA.Some?
  {
    var slots := Sorted(rows.Keys);
    PublishedPairsAt(source.placed, rows, slots);
    forall s | s in rows ensures rows[s].labelA.Some? {
      assert s in slots;
    }
  }

  /** Some match can be filled, and some other neither is nor can be. */
  predicate Mixed(rows: Rows) {
    && (exists s :: s in rows && rows[s].status.Scheduled?)
    && (exists s :: s in rows && !rows[s].status.Scheduled? && !Filled(rows[s]))
  }

  /** The publication is about to fill only a part of its round, and to lose its labels by that. */
  predicate Contested(b: Bracket) {
    DefinedRounds(b) == {} && PublishedPairs(b.source, RowsAt(b, 1)).Some? && Mixed(RowsAt(b, 1))
  }

  /** The seeding has the published pairs where they can be filled, only matches, and only in existing slots. */
  predicate SameWhereFilled(rows: Rows, published: seq<Pair>, seeded: seq<Pair>) {
    && (forall i | 0 <= i < |seeded| :: seeded[i].entryB.Some? && seeded[i].order in rows)
    && (forall i | 0 <= i < |published| && published[i].order in rows && rows[published[i].order].status.Scheduled? ::
          published[i] in seeded)
  }

  predicate SeedingMatches(setup: Setup, b: Bracket)
    requires PublishedPairs(b.source, RowsAt(b, 1)).Some?
  {
    SameWhereFilled(RowsAt(b, 1), PublishedPairs(b.source, RowsAt(b, 1)).value, Seeded(setup, b))
  }

  predicate FirstRoundSafe(setup: Setup, b: Bracket) {
    Contested(b) ==> SeedingMatches(setup, b)
  }

  lemma {:induction false} NoByes(pairs: seq<Pair>)
    requires InOrder(pairs)
    ensures ByesOf(pairs) == map[] <==> forall i | 0 <= i < |pairs| :: pairs[i].entryB.Some?
  {
    if i :| 0 <= i < |pairs| && pairs[i].entryB.None? {
      ByesOfAt(pairs, pairs[i].order);
    } else {
      forall slot: nat ensures slot !in ByesOf(pairs) {
        ByesOfAt(pairs, slot);
      }
    }
  }

  /** The round after its scheduled matches, and no others, were filled from the publication. */
  ghost predicate FilledFrom(rows: Rows, after: Rows, published: seq<Pair>) {
    && after.Keys == rows.Keys && RoundFits(after, map[], published)
    && forall s | s in rows :: Filled(after[s]) <==> rows[s].status.Scheduled?
  }

  /** The published pairs fill exactly the matches that are scheduled. */
  lemma {:induction false} PublishedFill(source: Source, rows: Rows, date: Date)
    requires RowsOk(rows) && PublishedPairs(source, rows).Some?
    ensures
      var pairs := PublishedPairs(source, rows).value;
      var after := FillRound(rows, pairs, date);
      RowsOk(after) && FilledFrom(rows, after, pairs) && ByesOf(pairs) == map[]
  {
    var pairs := PublishedPairs(source, rows).value;
    PublishedCoversRound(source, rows);
    FillMakesRound(rows, map[], pairs, date);
    NoByes(pairs);
    ScheduledGetFilled(rows, pairs, date);
  }

  lemma {:induction false} ScheduledGetFilled(rows: Rows, pairs: seq<Pair>, date: Date)
    requires ProperPairs(pairs) && !Started(rows)
    requires (forall i | 0 <= i < |pairs| :: pairs[i].order in rows) && forall s | s in rows :: RealSlot(pairs, s)
    ensures
      var after := FillRound(rows, pairs, date);
      after.Keys == rows.Keys && forall s | s in rows :: Filled(after[s]) <==> rows[s].status.Scheduled?
  {
    var after := FillRound(rows, pairs, date);
    forall s | s in after ensures s in rows {
      if !RealSlot(pairs, s) {
        FillRoundElsewhere(rows, pairs, date, s);
      }
    }
    forall s | s in rows ensures s in after && (Filled(after[s]) <==> rows[s].status.Scheduled?) {
      var i :| 0 <= i < |pairs| && pairs[i].order == s && pairs[i].entryB.Some?;
      FillRoundAt(rows, pairs, date, i);
    }
  }

  /** A round created or completed from the seeding. */
  lemma {:induction false} SeededRoundStays(setup: Setup, b: Bracket, b': Bracket, date: Date)
    requires SourceOk(b.source) && RowsOk(RowsAt(b, 1)) && FirstOk(Seeded(setup, b), b) && !Defined(RowsAt(b, 1))
    requires !b.source.Pending? && PublishedPairs(b.source, RowsAt(b, 1)).None?
    requires AddsRound(b, b', 1, FirstPairs(setup, b), date)
    ensures FirstOk(Seeded(setup, b), b') && RowsOk(RowsAt(b', 1))
  {
    var rows, seeded := RowsAt(b, 1), Seeded(setup, b);
    SeededProper(setup, b);
    if Started(rows) {
      var before :| FirstRoundFrom(seeded, b, before);
      assert before == seeded;
    }
    FillMakesRound(rows, ByesAt(b, 1), seeded, date);
    assert FirstRoundFrom(seeded, b', seeded);
  }

  /** A round filled from the publication: in full, not at all, or in part and then as seeded. */
  lemma {:induction false} PublishedRoundStays(setup: Setup, b: Bracket, b': Bracket, date: Date)
    requires SourceOk(b.source) && RowsOk(RowsAt(b, 1)) && PublishedPairs(b.source, RowsAt(b, 1)).Some?
    requires AddsRound(b, b', 1, PublishedPairs(b.source, RowsAt(b, 1)).value, date)
    requires Mixed(RowsAt(b, 1)) ==> SeedingMatches(setup, b)
    ensures FirstOk(Seeded(setup, b), b')
  {
    var rows, published, seeded := RowsAt(b, 1), PublishedPairs(b.source, RowsAt(b, 1)).value, Seeded(setup, b);
    PublishedFill(b.source, rows, date);
    PublishedCoversRound(b.source, rows);
    SeededProper(setup, b);
    PublishedRoundOk(rows, published, seeded, b');
  }

  lemma {:induction false} PublishedRoundOk(rows: Rows, published: seq<Pair>, seeded: seq<Pair>, b': Bracket)
    requires FilledFrom(rows, RowsAt(b', 1), published) && ByesAt(b', 1) == map[]
    requires NoRepeats(published) && ProperPairs(seeded) && NoRepeats(seeded) && !b'.source.Pending?
    requires Mixed(rows) ==> SameWhereFilled(rows, published, seeded)
    requires rows != map[] && !Started(rows)
    ensures FirstOk(seeded, b')
  {
    var after := RowsAt(b', 1);
    if Defined(after) {
      assert FirstRoundFrom(seeded, b', published);
    } else if s :| s in after && Filled(after[s]) {
      PartMeansMixed(rows, after, published);
      PartlyPublished(rows, published, seeded, after);
      assert FirstRoundFrom(seeded, b', seeded);
    }
  }

  lemma {:induction false} PartMeansMixed(rows: Rows, after: Rows, published: seq<Pair>)
    requires FilledFrom(rows, after, published) && rows != map[] && !Defined(after) && Started(after)
    ensures Mixed(rows) || Started(rows)
  {
    var s :| s in after && Filled(after[s]);
    var t :| t in after && !Filled(after[t]);
    assert s in rows && t in rows;
  }

  lemma {:induction false} PartlyPublished(rows: Rows, published: seq<Pair>, seeded: seq<Pair>, after: Rows)
    requires FilledFrom(rows, after, published) && ProperPairs(seeded) && SameWhereFilled(rows, published, seeded)
    ensures RoundFits(after, map[], seeded)
  {
    NoByes(seeded);
    forall s | s in after && Filled(after[s])
      ensures exists i :: 0 <= i < |seeded| && seeded[i].order == s && Hosts(after, seeded[i])
    {
      var k :| 0 <= k < |published| && published[k].order == s && published[k].entryB.Some?;
      assert Fits(after, published[k]);
      var i :| 0 <= i < |seeded| && seeded[i] == published[k];
    }
    forall i | 0 <= i < |seeded| && seeded[i].entryB.Some? ensures Fits(after, seeded[i]) {
      var s := seeded[i].order;
      if Filled(after[s]) {
        var j :| 0 <= j < |seeded| && seeded[j].order == s && Hosts(after, seeded[j]);
        assert i == j;
      }
    }
  }

  lemma {:induction false} FilledAsSeeded(rows: Rows, published: seq<Pair>, seeded: seq<Pair>, after: Rows)
    requires FilledFrom(rows, after, published) && RoundFits(after, map[], seeded)
    requires forall i | 0 <= i < |published| :: published[i].entryB.Some?
    ensures SameWhereFilled(rows, published, seeded)
  {
    NoByes(seeded);
    forall i | 0 <= i < |seeded| ensures seeded[i].entryB.Some? && seeded[i].order in rows {
      assert Fits(after, seeded[i]);
    }
    forall k | 0 <= k < |published| && published[k].order in rows && rows[published[k].order].status.Scheduled?
      ensures published[k] in seeded
    {
      FilledPairIsSame(after, published, seeded, k);
    }
  }

  lemma {:induction false} FirstRoundKeepsConsistent(
      seeded: seq<Pair>, b: Bracket, b': Bracket, pairs: seq<Pair>, date: Date)
    requires Consistent(seeded, b) && DefinedRounds(b) == {}
    requires AddsRound(b, b', 1, pairs, date)
    requires b'.third == b.third && b'.rounds.Keys == b.rounds.Keys + {1}
    requires FirstOk(seeded, b') && RowsOk(RowsAt(b', 1))
    ensures Consistent(seeded, b')
  {
    forall r: nat ensures LaterOk(b', r) {
      assert LaterOk(b, r);
      if r != 1 {
        OtherRoundsStay(b, b', 0, r);
      }
    }
    NoThirdYet(b);
    RowsAllOkAfter(b, b', 1);
  }

  lemma {:induction false} NoThirdYet(b: Bracket)
    requires ThirdOk(b) && DefinedRounds(b) == {}
    ensures b.third.Some? ==> !Filled(b.third.value)
  {
    if b.third.Some? && Filled(b.third.value) {
      var r: nat :| ThirdFrom(b, r);
      ThirdSemifinalDefined(b, r);
    }
  }

  lemma {:induction false} ThirdSemifinalDefined(b: Bracket, round: nat)
    requires ThirdFrom(b, round)
    ensures round in DefinedRounds(b)
  {
  }

  /** Every recomputation keeps the invariant, unless it fills a part of a publication the seeding disagrees with. */
  lemma {:induction false} ProgressKeepsConsistent(setup: Setup, b: Bracket, date: Date)
    requires Consistent(Seeded(setup, b), b) && FirstRoundSafe(setup, b)
    ensures Consistent(Seeded(setup, b), Progress(setup, b, date))
    ensures Progress(setup, b, date).source == b.source
  {
    if DefinedRounds(b) != {} {
      AdvanceKeepsConsistent(Seeded(setup, b), setup, b, MaxOf(DefinedRounds(b)), date);
    } else if !b.source.Pending? && HasMatch(FirstPairs(setup, b)) {
      FirstRoundKeeps(setup, b, date);
    }
  }

  lemma {:induction false} FirstRoundUndefined(b: Bracket)
    requires DefinedRounds(b) == {} && RowsAllOk(b)
    ensures !Defined(RowsAt(b, 1)) && RowsOk(RowsAt(b, 1))
  {
    assert 1 in DefinedRounds(b) <==> Defined(RowsAt(b, 1));
  }

  lemma {:induction false} FirstRoundKeeps(setup: Setup, b: Bracket, date: Date)
    requires Consistent(Seeded(setup, b), b) && DefinedRounds(b) == {} && !b.source.Pending?
    requires FirstRoundSafe(setup, b)
    ensures Consistent(Seeded(setup, b), WithRound(b, 1, FirstPairs(setup, b), date))
  {
    var pairs := FirstPairs(setup, b);
    var b' := WithRound(b, 1, pairs, date);
    WithRoundAdds(b, 1, pairs, date, b.third);
    assert b' == b'.(third := b.third);
    FirstRoundUndefined(b);
    if PublishedPairs(b.source, RowsAt(b, 1)).Some? {
      PublishedRoundStays(setup, b, b', date);
      PublishedFill(b.source, RowsAt(b, 1), date);
    } else {
      SeededRoundStays(setup, b, b', date);
    }
    FirstRoundKeepsConsistent(Seeded(setup, b), b, b', pairs, date);
  }

  /** A part of a publication the seeding disagrees with leaves a round that is neither. */
  lemma {:induction false} PartlyPublishedDisagrees(setup: Setup, b: Bracket, date: Date)
    requires Consistent(Seeded(setup, b), b) && Contested(b) && !SeedingMatches(setup, b)
    ensures !FirstOk(Seeded(setup, b), Progress(setup, b, date))
  {
    var rows, published, seeded := RowsAt(b, 1), PublishedPairs(b.source, RowsAt(b, 1)).value, Seeded(setup, b);
    FirstRoundUndefined(b);
    PublishedCoversRound(b.source, rows);
    PublishedFill(b.source, rows, date);
    assert HasMatch(published);
    NeitherPublishedNorSeeded(rows, published, seeded, Progress(setup, b, date));
  }

  lemma {:induction false} NeitherPublishedNorSeeded(rows: Rows, published: seq<Pair>, seeded: seq<Pair>, b': Bracket)
    requires FilledFrom(rows, RowsAt(b', 1), published) && ByesAt(b', 1) == map[] && Mixed(rows)
    requires forall i | 0 <= i < |published| :: published[i].entryB.Some?
    requires !SameWhereFilled(rows, published, seeded)
    ensures !FirstOk(seeded, b')
  {
    NotDefinedWhenMixed(rows, RowsAt(b', 1));
    StartedWhenMixed(rows, RowsAt(b', 1));
    if pairs :| FirstRoundFrom(seeded, b', pairs) {
      FilledAsSeeded(rows, published, seeded, RowsAt(b', 1));
    }
  }

  lemma {:induction false} NotDefinedWhenMixed(rows: Rows, after: Rows)
    requires Mixed(rows) && after.Keys == rows.Keys
    requires forall s | s in rows :: Filled(after[s]) <==> rows[s].status.Scheduled?
    ensures !Defined(after)
  {
    var s :| s in rows && !rows[s].status.Scheduled? && !Filled(rows[s]);
    assert s in after;
  }

  lemma {:induction false} StartedWhenMixed(rows: Rows, after: Rows)
    requires Mixed(rows) && after.Keys == rows.Keys
    requires forall s | s in rows :: Filled(after[s]) <==> rows[s].status.Scheduled?
    ensures Started(after)
  {
    var s :| s in rows && rows[s].status.Scheduled?;
    assert s in after;
  }

  lemma {:induction false} FilledPairIsSame(after: Rows, published: seq<Pair>, seeded: seq<Pair>, k: nat)
    requires RoundFits(after, map[], published) && RoundFits(after, map[], seeded)
    requires k < |published| && published[k].entryB.Some?
    requires published[k].order in after && Filled(after[published[k].order])
    ensures published[k] in seeded
  {
    var s := published[k].order;
    assert Fits(after, published[k]) && RealSlot(seeded, s);
    var i :| 0 <= i < |seeded| && seeded[i].order == s && seeded[i].entryB.Some?;
    assert Fits(after, seeded[i]);
    assert seeded[i] == published[k];
  }

  /** The exact condition: it can be read off the round and the seeding before the recomputation. */
  lemma {:induction false} ProgressKeepsConsistentExactly(setup: Setup, b: Bracket, date: Date)
    requires Consistent(Seeded(setup, b), b)
    ensures Consistent(Seeded(setup, b), Progress(setup, b, date)) <==> FirstRoundSafe(setup, b)
  {
    if FirstRoundSafe(setup, b) {
      ProgressKeepsConsistent(setup, b, date);
    } else {
      PartlyPublishedDisagrees(setup, b, date);
    }
  }
}
