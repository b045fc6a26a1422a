/** Playing a bracket out: with nothing but results and recomputations, n entries take n - 1 results to a champion. */
module BracketPlayout {
  import opened Wrappers
  import opened Entries
  import opened NatSets
  import opened Statuses
  import opened Seeding
  import opened Knockout
  import opened KnockoutPhase
  import opened BracketInvariant
  import opened BracketResults
  import opened BracketRuns
  import opened BracketLength

  // ----- Steps and states -----

  /** A result with a winner, or a recomputation. */
  predicate IsResult(step: Step) {
    step.Recompute? || (step.Decide? && step.winner.Some?)
  }

  predicate OnlyResults(steps: seq<Step>) {
    forall i | 0 <= i < |steps| :: IsResult(steps[i])
  }

  /** Nothing published, and at least two entries. */
  ghost predicate Fresh(b: Bracket) {
    Initial(b) && b.rounds == map[] && !b.source.Pending? && |b.source.slots| >= 2
  }

  /** Waiting for its result, or won. */
  predicate OpenOrWon(m: KoMatch) {
    Filled(m) && if m.status.Scheduled? then m.winner.None? else Official(m.status) && m.winner.Some?
  }

  predicate RoundPlays(rows: Rows) {
    rows != map[] && forall s | s in rows :: OpenOrWon(rows[s])
  }

  ghost predicate Playing(b: Bracket) {
    forall r | r in b.rounds :: RoundPlays(b.rounds[r])
  }

  /** There is nothing left for a recomputation to do. */
  ghost predicate Recomputed(b: Bracket) {
    b.rounds != map[] ==> DefinedRounds(b) != {} && !Advances(b, MaxOf(DefinedRounds(b)))
  }

  ghost predicate InPlay(setup: Setup, b: Bracket) {
    && Consistent(Seeded(setup, b), b) && FromSeeding(setup, b)
    && !b.source.Pending? && |b.source.slots| >= 2
    && Playing(b) && Recomputed(b)
  }

  lemma {:induction false} PlayingRounds(b: Bracket)
    requires Playing(b)
    ensures DefinedRounds(b) == b.rounds.Keys
  {
    forall r | r in b.rounds ensures r in DefinedRounds(b) {
      assert RoundPlays(b.rounds[r]);
    }
  }

  // ----- A step keeps the bracket in play -----

  lemma {:induction false} StoredKeepsPlaying(b: Bracket, step: Step)
    requires Playing(b) && IsResult(step) && Enabled(b, step)
    ensures Playing(Stored(b, step)) && Stored(b, step).source == b.source
    ensures Stored(b, step).rounds.Keys == b.rounds.Keys
  {
    if step.Decide? && step.ref.Slot? {
      var r, s := step.ref.round, step.ref.slot;
      assert r in b.rounds && RoundPlays(b.rounds[r]) && OpenOrWon(b.rounds[r][s]);
    }
  }

  /** A round made from nothing has every match open. */
  lemma {:induction false} NewRoundPlays(pairs: seq<Pair>, date: Date)
    requires InOrder(pairs) && HasMatch(pairs)
    ensures RoundPlays(FillRound(map[], pairs, date)) && !AllOfficial(FillRound(map[], pairs, date))
    ensures OfficialSlots(FillRound(map[], pairs, date)) == {}
  {
    var after := FillRound(map[], pairs, date);
    var k :| 0 <= k < |pairs| && pairs[k].entryB.Some?;
    FillRoundAt(map[], pairs, date, k);
    forall s | s in after ensures OpenOrWon(after[s]) && after[s].status.Scheduled? {
      NewMatchOpen(pairs, date, s);
    }
    assert pairs[k].order in after;
  }

  lemma {:induction false} NewMatchOpen(pairs: seq<Pair>, date: Date, s: nat)
    requires InOrder(pairs) && s in FillRound(map[], pairs, date)
    ensures var m := FillRound(map[], pairs, date)[s]; OpenOrWon(m) && m.status.Scheduled?
  {
    if RealSlot(pairs, s) {
      var i :| 0 <= i < |pairs| && pairs[i].order == s && pairs[i].entryB.Some?;
      FillRoundAt(map[], pairs, date, i);
    } else {
      FillRoundElsewhere(map[], pairs, date, s);
    }
  }

  lemma {:induction false} SeedingHasMatch(entries: seq<Entry>, crossing: Crossing)
    requires |entries| >= 2
    ensures HasMatch(SeedPairs(entries, crossing))
  {
    var pairs := SeedPairs(entries, crossing);
    if crossing.Sequential? {
      assert pairs[0].entryB.Some?;
    } else {
      BracketSizeIsLeastPowerOfTwo(|entries|);
      assert pairs[|pairs| - 1].entryB.Some?;
    }
  }

  /** What a recomputation does to a bracket in play: nothing, or one new round. */
  ghost predicate OneRoundAdded(b: Bracket, b': Bracket, round: nat) {
    && b'.source == b.source && round !in b.rounds && b'.rounds.Keys == b.rounds.Keys + {round}
    && (forall r | r in b.rounds :: r < round && b'.rounds[r] == b.rounds[r])
    && RoundPlays(b'.rounds[round]) && !AllOfficial(b'.rounds[round]) && OfficialSlots(b'.rounds[round]) == {}
  }

  lemma {:induction false} FirstRoundAdded(setup: Setup, b: Bracket, date: Date)
    requires b.rounds == map[] && !b.source.Pending? && |b.source.slots| >= 2 && SourceOk(b.source)
    ensures OneRoundAdded(b, Progress(setup, b, date), 1)
  {
    UnlabelledHasNoPublication(b.source, RowsAt(b, 1));
    SeedingHasMatch(b.source.slots, setup.crossing);
    SeededProper(setup, b);
    NewRoundPlays(Seeded(setup, b), date);
  }

  lemma {:induction false} NextRoundAdded(setup: Setup, b: Bracket, date: Date)
    requires Playing(b) && b.rounds != map[] && Advances(b, MaxOf(b.rounds.Keys))
    ensures OneRoundAdded(b, Progress(setup, b, date), MaxOf(b.rounds.Keys) + 1)
  {
    PlayingRounds(b);
    var last := MaxOf(b.rounds.Keys);
    var winners := Advancers(RowsAt(b, last), ByesAt(b, last));
    SequentialPairsProper(winners);
    assert SequentialPairs(winners)[0].entryB.Some?;
    NewRoundPlays(SequentialPairs(winners), date);
    assert last + 1 !in b.rounds && RowsAt(b, last + 1) == map[];
  }

  lemma {:induction false} NothingAdded(setup: Setup, b: Bracket, date: Date)
    requires Playing(b) && b.rounds != map[] && !Advances(b, MaxOf(b.rounds.Keys))
    ensures Progress(setup, b, date) == b
  {
    PlayingRounds(b);
    var last := MaxOf(b.rounds.Keys);
    assert last in DefinedRounds(b);
    AdvanceShape(setup, b, last, date);
  }

  lemma {:induction false} AddedKeepsPlaying(b: Bracket, b': Bracket, round: nat)
    requires Playing(b) && OneRoundAdded(b, b', round)
    ensures Playing(b') && Recomputed(b') && MaxOf(b'.rounds.Keys) == round
  {
    forall r | r in b'.rounds ensures RoundPlays(b'.rounds[r]) {
      assert r == round || (r in b.rounds && RoundPlays(b.rounds[r]));
    }
    PlayingRounds(b');
    assert RowsAt(b', round) == b'.rounds[round];
  }

  lemma {:induction false} TakeKeepsInPlay(setup: Setup, b: Bracket, step: Step)
    requires InPlay(setup, b) && IsResult(step)
    ensures InPlay(setup, Take(setup, b, step))
    ensures Take(setup, b, step).source == b.source
  {
    if Enabled(b, step) {
      var stored := Stored(b, step);
      StoredKeepsPlaying(b, step);
      StoredKeepsFromSeeding(setup, b, step);
      UnlabelledHasNoPublication(stored.source, RowsAt(stored, 1));
      assert Safe(setup, b, step);
      TakeKeepsConsistent(setup, b, step);
      TakeKeepsFromSeeding(setup, b, step);
      ProgressKeepsPlaying(setup, stored, step.date);
    }
  }

  lemma {:induction false} ProgressKeepsPlaying(setup: Setup, b: Bracket, date: Date)
    requires Playing(b) && !b.source.Pending? && |b.source.slots| >= 2 && SourceOk(b.source)
    ensures
      var b' := Progress(setup, b, date);
      && Playing(b') && Recomputed(b') && b'.source == b.source
      && (b' == b || exists round :: OneRoundAdded(b, b', round))
  {
    var b' := Progress(setup, b, date);
    if b.rounds == map[] {
      FirstRoundAdded(setup, b, date);
      AddedKeepsPlaying(b, b', 1);
    } else if Advances(b, MaxOf(b.rounds.Keys)) {
      NextRoundAdded(setup, b, date);
      AddedKeepsPlaying(b, b', MaxOf(b.rounds.Keys) + 1);
    } else {
      NothingAdded(setup, b, date);
      PlayingRounds(b);
    }
  }

  lemma {:induction false} FreshIsInPlay(setup: Setup, b: Bracket)
    requires Fresh(b)
    ensures InPlay(setup, b)
  {
    assert Run(setup, b, []) == b;
    RunKeepsConsistent(setup, b, []);
    RunKeepsFromSeeding(setup, b, []);
  }

  lemma {:induction false} RunKeepsInPlay(setup: Setup, b: Bracket, steps: seq<Step>)
    requires Fresh(b) && OnlyResults(steps)
    ensures InPlay(setup, Run(setup, b, steps)) && Run(setup, b, steps).source == b.source
  {
    if steps == [] {
      FreshIsInPlay(setup, b);
    } else {
      var n := |steps| - 1;
      RunKeepsInPlay(setup, b, steps[..n]);
      TakeKeepsInPlay(setup, Run(setup, b, steps[..n]), steps[n]);
    }
  }

  // ----- Counting results -----

  function OfficialSlots(rows: Rows): set<nat> {
    set s | s in rows && Official(rows[s].status)
  }

  function DecidedUpTo(b: Bracket, round: nat): nat {
    if round == 0 then 0 else DecidedUpTo(b, round - 1) + |OfficialSlots(RowsAt(b, round))|
  }

  lemma {:induction false} SameDecided(b: Bracket, b': Bracket, round: nat)
    requires forall r | 1 <= r <= round :: OfficialSlots(RowsAt(b', r)) == OfficialSlots(RowsAt(b, r))
    ensures DecidedUpTo(b', round) == DecidedUpTo(b, round)
  {
    if round > 0 {
      SameDecided(b, b', round - 1);
    }
  }

  lemma {:induction false} OneMoreDecided(b: Bracket, b': Bracket, at: nat, slot: nat, round: nat)
    requires 1 <= at <= round && slot !in OfficialSlots(RowsAt(b, at))
    requires OfficialSlots(RowsAt(b', at)) == OfficialSlots(RowsAt(b, at)) + {slot}
    requires forall r | 1 <= r <= round && r != at :: OfficialSlots(RowsAt(b', r)) == OfficialSlots(RowsAt(b, r))
    ensures DecidedUpTo(b', round) == DecidedUpTo(b, round) + 1
  {
    if at == round {
      SameDecided(b, b', round - 1);
    } else {
      OneMoreDecided(b, b', at, slot, round - 1);
    }
  }

  /** Results of bracket matches that were accepted on the way; those of the third-place match do not count. */
  ghost function ResultsIn(setup: Setup, b: Bracket, steps: seq<Step>): nat {
    if steps == [] then 0
    else
      var n := |steps| - 1;
      ResultsIn(setup, b, steps[..n]) + if Counted(Run(setup, b, steps[..n]), steps[n]) then 1 else 0
  }

  ghost predicate Counted(b: Bracket, step: Step) {
    step.Decide? && step.ref.Slot? && Enabled(b, step)
  }

  function LastRound(b: Bracket): nat
    requires !b.source.Pending?
  {
    CeilLog2(|b.source.slots|)
  }

  lemma {:induction false} AddedDecidesNothing(b: Bracket, b': Bracket, round: nat, upTo: nat)
    requires OneRoundAdded(b, b', round)
    ensures DecidedUpTo(b', upTo) == DecidedUpTo(b, upTo)
  {
    forall r | 1 <= r <= upTo ensures OfficialSlots(RowsAt(b', r)) == OfficialSlots(RowsAt(b, r)) {
      if r == round {
        assert OfficialSlots(RowsAt(b, r)) == {};
      }
    }
    SameDecided(b, b', upTo);
  }

  lemma {:induction false} StoredDecidesOne(setup: Setup, b: Bracket, step: Step)
    requires InPlay(setup, b) && IsResult(step) && Enabled(b, step)
    ensures
      DecidedUpTo(Stored(b, step), LastRound(b)) == DecidedUpTo(b, LastRound(b)) + if Counted(b, step) then 1 else 0
  {
    var stored := Stored(b, step);
    if Counted(b, step) {
      RoundWithinReach(setup, b, step.ref.round, step.ref.slot);
      ResultDecidesOne(b, step.ref.round, step.ref.slot,
                       Lookup(b, step.ref).value.(status := step.how, winner := step.winner), LastRound(b));
    } else {
      SameDecided(b, stored, LastRound(b));
    }
  }

  lemma {:induction false} RoundWithinReach(setup: Setup, b: Bracket, round: nat, slot: nat)
    requires InPlay(setup, b) && slot in RowsAt(b, round)
    ensures 1 <= round <= LastRound(b)
  {
    assert round in b.rounds && RoundPlays(b.rounds[round]) && OpenOrWon(b.rounds[round][slot]);
    assert Filled(RowsAt(b, round)[slot]);
    var pairs := RoundInPlace(setup, b, round);
  }

  lemma {:induction false} ResultDecidesOne(b: Bracket, round: nat, slot: nat, m: KoMatch, upTo: nat)
    requires 1 <= round <= upTo && slot in RowsAt(b, round)
    requires Official(m.status) && !Official(RowsAt(b, round)[slot].status)
    ensures DecidedUpTo(Store(b, Slot(round, slot), m), upTo) == DecidedUpTo(b, upTo) + 1
  {
    var stored := Store(b, Slot(round, slot), m);
    assert OfficialSlots(RowsAt(stored, round)) == OfficialSlots(RowsAt(b, round)) + {slot};
    OneMoreDecided(b, stored, round, slot, upTo);
  }

  lemma {:induction false} TakeDecidesOne(setup: Setup, b: Bracket, step: Step)
    requires InPlay(setup, b) && IsResult(step)
    ensures
      DecidedUpTo(Take(setup, b, step), LastRound(b)) ==
      DecidedUpTo(b, LastRound(b)) + if Counted(b, step) then 1 else 0
  {
    if Enabled(b, step) {
      var stored := Stored(b, step);
      StoredDecidesOne(setup, b, step);
      StoredKeepsPlaying(b, step);
      ProgressKeepsPlaying(setup, stored, step.date);
      if round: nat :| OneRoundAdded(stored, Progress(setup, stored, step.date), round) {
        AddedDecidesNothing(stored, Progress(setup, stored, step.date), round, LastRound(b));
      }
    }
  }

  lemma {:induction false} NothingDecided(b: Bracket, round: nat)
    requires b.rounds == map[]
    ensures DecidedUpTo(b, round) == 0
  {
    if round > 0 {
      NothingDecided(b, round - 1);
      assert OfficialSlots(RowsAt(b, round)) == {};
    }
  }

  lemma {:induction false} ResultsAreDecided(setup: Setup, b: Bracket, steps: seq<Step>)
    requires Fresh(b) && OnlyResults(steps)
    ensures ResultsIn(setup, b, steps) == DecidedUpTo(Run(setup, b, steps), LastRound(b))
  {
    if steps == [] {
      NothingDecided(b, LastRound(b));
    } else {
      var n := |steps| - 1;
      ResultsAreDecided(setup, b, steps[..n]);
      RunKeepsInPlay(setup, b, steps[..n]);
      TakeDecidesOne(setup, Run(setup, b, steps[..n]), steps[n]);
    }
  }

  // ----- How far the results have got -----

  lemma {:induction false} CompleteDecided(b: Bracket, round: nat)
    requires forall r | 1 <= r <= round :: Complete(RowsAt(b, r))
    ensures DecidedUpTo(b, round) == MatchesUpTo(b, round)
  {
    if round > 0 {
      CompleteDecided(b, round - 1);
      assert OfficialSlots(RowsAt(b, round)) == RowsAt(b, round).Keys;
    }
  }

  lemma {:induction false} NothingBeyond(b: Bracket, last: nat, round: nat)
    requires last <= round && forall r | r in b.rounds :: r <= last
    ensures DecidedUpTo(b, round) == DecidedUpTo(b, last)
  {
    if last < round {
      NothingBeyond(b, last, round - 1);
      assert OfficialSlots(RowsAt(b, round)) == {};
    }
  }

  /** A match whose participants are known and whose result is not. */
  ghost predicate OpenAt(b: Bracket, round: nat, slot: nat) {
    slot in RowsAt(b, round) && Filled(RowsAt(b, round)[slot]) && RowsAt(b, round)[slot].status.Scheduled?
  }

  ghost predicate HasOpenMatch(b: Bracket) {
    exists round: nat, slot: nat :: OpenAt(b, round, slot)
  }

  lemma {:induction false} LastInPlace(setup: Setup, b: Bracket, last: nat) returns (pairs: seq<Pair>)
    requires InPlay(setup, b) && b.rounds != map[] && last == MaxOf(b.rounds.Keys)
    ensures Started(RowsAt(b, last)) && InPlace(|b.source.slots|, b, last, pairs)
    ensures |RowsAt(b, last).Keys| == MatchesIn(pairs)
  {
    PlayingRounds(b);
    assert last in DefinedRounds(b);
    DefinedHasMatch(RowsAt(b, last));
    pairs := RoundInPlace(setup, b, last);
    RowsOfPairing(RowsAt(b, last), ByesAt(b, last), pairs);
  }

  lemma {:induction false} InPlaceWithinReach(n: nat, b: Bracket, round: nat, pairs: seq<Pair>)
    requires InPlace(n, b, round, pairs)
    ensures 1 <= round <= CeilLog2(n) && RoundFits(RowsAt(b, round), ByesAt(b, round), pairs)
    ensures pairs != [] && MatchesUpTo(b, round - 1) + MatchesIn(pairs) + |pairs| == n
  {
  }

  lemma {:induction false} NoneAfterLast(b: Bracket, last: nat)
    requires b.rounds != map[] && last == MaxOf(b.rounds.Keys)
    ensures forall r | r in b.rounds :: r <= last
  {
  }

  /** What is decided is every match before the last round, and what is official in it. */
  lemma {:induction false} AllBeforeDecided(seeded: seq<Pair>, b: Bracket, last: nat, upTo: nat)
    requires Consistent(seeded, b) && Started(RowsAt(b, last)) && 1 <= last <= upTo
    requires forall r | r in b.rounds :: r <= last
    ensures DecidedUpTo(b, upTo) == MatchesUpTo(b, last - 1) + |OfficialSlots(RowsAt(b, last))|
  {
    EarlierComplete(seeded, b, last);
    CompleteDecided(b, last - 1);
    NothingBeyond(b, last, upTo);
  }

  /** All rounds before the last one are complete, so what is decided can be counted. */
  lemma {:induction false} DecidedSoFar(setup: Setup, b: Bracket, last: nat) returns (pairs: seq<Pair>)
    requires InPlay(setup, b) && b.rounds != map[] && last == MaxOf(b.rounds.Keys)
    ensures last >= 1 && last <= LastRound(b) && pairs != []
    ensures RoundFits(RowsAt(b, last), ByesAt(b, last), pairs) && |RowsAt(b, last).Keys| == MatchesIn(pairs)
    ensures
      DecidedUpTo(b, LastRound(b)) + MatchesIn(pairs) + |pairs| ==
      |b.source.slots| + |OfficialSlots(RowsAt(b, last))|
  {
    pairs := LastInPlace(setup, b, last);
    InPlaceWithinReach(|b.source.slots|, b, last, pairs);
    NoneAfterLast(b, last);
    AllBeforeDecided(Seeded(setup, b), b, last, LastRound(b));
  }

  lemma {:induction false} EarlierComplete(seeded: seq<Pair>, b: Bracket, last: nat)
    requires Consistent(seeded, b) && Started(RowsAt(b, last)) && last >= 1
    ensures forall r | 1 <= r < last :: Complete(RowsAt(b, r))
  {
    assert LaterOk(b, last);
    forall r | 1 <= r < last ensures Complete(RowsAt(b, r)) {
      CompleteAt(b, last - 1, r);
    }
  }

  lemma {:induction false} OpenInRound(rows: Rows)
    requires RoundPlays(rows) && !Complete(rows)
    ensures exists s: nat :: s in rows && Filled(rows[s]) && rows[s].status.Scheduled?
    ensures |OfficialSlots(rows)| < |rows.Keys|
  {
    if s: nat :| s in rows && rows[s].status.Scheduled? {
      assert OpenOrWon(rows[s]);
      assert OfficialSlots(rows) <= rows.Keys - {s};
      SmallerSet(OfficialSlots(rows), rows.Keys - {s});
    }
  }

  lemma {:induction false} SmallerSet(a: set<nat>, b: set<nat>)
    requires a <= b
    ensures |a| <= |b|
  {
    assert b == a + (b - a);
  }

  /** Of a bracket in play: it has ended exactly if n - 1 results are in, and otherwise a match is open. */
  lemma {:induction false} InPlayEndsExactly(setup: Setup, b: Bracket)
    requires InPlay(setup, b) && b.rounds != map[]
    ensures DecidedUpTo(b, LastRound(b)) < |b.source.slots|
    ensures HasEnded(b) <==> DecidedUpTo(b, LastRound(b)) == |b.source.slots| - 1
    ensures HasEnded(b) <==> !HasOpenMatch(b)
  {
    PlayingRounds(b);
    var last := MaxOf(b.rounds.Keys);
    var pairs := DecidedSoFar(setup, b, last);
    if Complete(RowsAt(b, last)) {
      EndedAtLast(b, last, pairs);
      NoneOpenAtEnd(setup, b, last);
    } else {
      OpenAtLast(setup, b, last);
    }
  }

  lemma {:induction false} EndedAtLast(b: Bracket, last: nat, pairs: seq<Pair>)
    requires RowsAllOk(b) && last in b.rounds && Complete(RowsAt(b, last))
    requires Recomputed(b) && last == MaxOf(DefinedRounds(b))
    requires pairs != [] && RoundFits(RowsAt(b, last), ByesAt(b, last), pairs)
    ensures |pairs| == 1 && ChampionAt(b, last)
    ensures OfficialSlots(RowsAt(b, last)) == RowsAt(b, last).Keys
  {
    RoundRowsOk(b, last);
    CompletedCounts(RowsAt(b, last), ByesAt(b, last), pairs);
    LeavesOne(b, last);
    AllRowsOfficial(RowsAt(b, last));
  }

  lemma {:induction false} NoneOpenAtEnd(setup: Setup, b: Bracket, last: nat)
    requires Consistent(Seeded(setup, b), b) && last in b.rounds && (forall r | r in b.rounds :: r <= last)
    requires Complete(RowsAt(b, last))
    ensures !HasOpenMatch(b)
  {
    RoundRowsOk(b, last);
    DefinedHasMatch(RowsAt(b, last));
    EarlierComplete(Seeded(setup, b), b, last);
    AllCompleteNoneOpen(b, last);
  }

  lemma {:induction false} RoundRowsOk(b: Bracket, round: nat)
    requires RowsAllOk(b) && round in b.rounds
    ensures RowsOk(RowsAt(b, round)) && round >= 1
  {
  }

  lemma {:induction false} LeavesOne(b: Bracket, last: nat)
    requires Recomputed(b) && b.rounds != map[] && last == MaxOf(DefinedRounds(b)) && Complete(RowsAt(b, last))
    requires |Advancers(RowsAt(b, last), ByesAt(b, last))| >= 1
    ensures ChampionAt(b, last)
  {
  }

  lemma {:induction false} AllRowsOfficial(rows: Rows)
    requires Complete(rows)
    ensures OfficialSlots(rows) == rows.Keys
  {
  }

  lemma {:induction false} AllCompleteNoneOpen(b: Bracket, last: nat)
    requires (forall r | r in b.rounds :: 1 <= r <= last) && forall r | 1 <= r <= last :: Complete(RowsAt(b, r))
    ensures !HasOpenMatch(b)
  {
    forall round: nat, slot: nat ensures !OpenAt(b, round, slot) {
      if slot in RowsAt(b, round) {
        assert round in b.rounds && Complete(RowsAt(b, round));
      }
    }
  }

  lemma {:induction false} OpenAtLast(setup: Setup, b: Bracket, last: nat)
    requires InPlay(setup, b) && b.rounds != map[] && last == MaxOf(b.rounds.Keys) && !Complete(RowsAt(b, last))
    ensures !HasEnded(b) && HasOpenMatch(b) && |OfficialSlots(RowsAt(b, last))| < |RowsAt(b, last).Keys|
  {
    PlayingRounds(b);
    assert last in b.rounds && RoundPlays(b.rounds[last]);
    OpenInRound(RowsAt(b, last));
    var s: nat :| s in RowsAt(b, last) && Filled(RowsAt(b, last)[s]) && RowsAt(b, last)[s].status.Scheduled?;
    assert OpenAt(b, last, s);
    forall round: nat ensures !ChampionAt(b, round) {
      if Complete(RowsAt(b, round)) {
        assert round in b.rounds && round < last;
        NotEndedBefore(setup, b, round, last);
      }
    }
  }

  lemma {:induction false} NotEndedBefore(setup: Setup, b: Bracket, round: nat, last: nat)
    requires Consistent(Seeded(setup, b), b) && Started(RowsAt(b, last)) && 1 <= round < last
    requires Complete(RowsAt(b, round))
    ensures !ChampionAt(b, round)
  {
    RoundAfterStarted(setup, b, round, last);
    assert LaterOk(b, round + 1);
    TwoGoOn(b, round, round + 1);
  }

  lemma {:induction false} RoundAfterStarted(setup: Setup, b: Bracket, round: nat, last: nat)
    requires Consistent(Seeded(setup, b), b) && Started(RowsAt(b, last)) && 1 <= round < last
    ensures Started(RowsAt(b, round + 1))
  {
    if round + 1 < last {
      EarlierComplete(Seeded(setup, b), b, last);
      DefinedHasMatch(RowsAt(b, round + 1));
    }
  }

  /** An open match takes a result for either side. */
  lemma {:induction false} OpenMatchTakesResult(b: Bracket, round: nat, slot: nat, winner: Entry, date: Date)
    requires OpenAt(b, round, slot)
    ensures Enabled(b, Decide(Slot(round, slot), Some(winner), Finished, date)) <==>
            IsEntrant(RowsAt(b, round)[slot], winner)
  {
  }

  // ----- The theorem -----

  /**
   * From n >= 2 entries and nothing published, whatever the results are and in whatever order they come in: at most
   * n - 1 results are accepted, there is a champion exactly after the (n - 1)-th, and until then, once the first round
   * exists, some match has both participants and waits for its result.
   */
  lemma {:induction false} ResultsLeadToChampion(setup: Setup, b: Bracket, steps: seq<Step>)
    requires Fresh(b) && OnlyResults(steps)
    ensures
      var now, n := Run(setup, b, steps), |b.source.slots|;
      && ResultsIn(setup, b, steps) <= n - 1
      && (HasEnded(now) <==> ResultsIn(setup, b, steps) == n - 1)
      && (HasEnded(now) || HasOpenMatch(now) || now.rounds == map[])
      && (now.rounds == map[] ==> forall date :: HasOpenMatch(Take(setup, now, Recompute(date))))
  {
    var now := Run(setup, b, steps);
    RunKeepsInPlay(setup, b, steps);
    ResultsAreDecided(setup, b, steps);
    if now.rounds != map[] {
      InPlayEndsExactly(setup, now);
    } else {
      NothingDecided(now, LastRound(b));
      forall date: Date ensures HasOpenMatch(Take(setup, now, Recompute(date))) {
        FirstRoundOpens(setup, now, date);
      }
    }
  }

  lemma {:induction false} FirstRoundOpens(setup: Setup, b: Bracket, date: Date)
    requires InPlay(setup, b) && b.rounds == map[]
    ensures HasOpenMatch(Take(setup, b, Recompute(date)))
  {
    FirstRoundAdded(setup, b, date);
    var rows := Progress(setup, b, date).rounds[1];
    OpenInRound(rows);
    var s: nat :| s in rows && Filled(rows[s]) && rows[s].status.Scheduled?;
    assert OpenAt(Progress(setup, b, date), 1, s);
  }
}
