/** How long a stored bracket takes: rounds, matches and results from the entries it was seeded with to a champion. */
module BracketLength {
  import opened Wrappers
  import opened Entries
  import opened NatSets
  import opened Statuses
  import opened Seeding
  import opened Knockout
  import opened KnockoutPhase
  import opened BracketInvariant
  import opened BracketRecompute
  import opened BracketResults
  import opened BracketRuns
  import opened BracketProgress

  // ----- Brackets whose first round is seeded -----

  predicate Unlabelled(rows: Rows) {
    forall s | s in rows :: rows[s].labelA.None?
  }

  /** The first round was not published with labels, and follows the seeding once it has participants. */
  ghost predicate FromSeeding(setup: Setup, b: Bracket) {
    && Unlabelled(RowsAt(b, 1))
    && (Started(RowsAt(b, 1)) ==> !b.source.Pending? && RoundFits(RowsAt(b, 1), ByesAt(b, 1), Seeded(setup, b)))
  }

  /** The entries change only before the first round has participants. */
  predicate SettledStep(b: Bracket, step: Step) {
    (step.ChangeSource? || step.Classify?) && Started(RowsAt(b, 1)) ==> step.source == b.source
  }

  ghost predicate SettledRun(setup: Setup, b: Bracket, steps: seq<Step>) {
    steps == [] ||
    (SettledRun(setup, b, steps[..|steps| - 1]) &&
     SettledStep(Run(setup, b, steps[..|steps| - 1]), steps[|steps| - 1]))
  }

  lemma {:induction false} UnlabelledHasNoPublication(source: Source, rows: Rows)
    requires Unlabelled(rows)
    ensures PublishedPairs(source, rows).None?
  {
    if s :| s in rows {
      MissingLabelHidesPublication(source, rows, s);
    }
  }

  /** A result of one match leaves the pairing of the first round alone. */
  lemma {:induction false} ResultKeepsFromSeeding(setup: Setup, b: Bracket, ref: Ref, m: KoMatch)
    requires FromSeeding(setup, b) && Lookup(b, ref).Some? && SameSides(Lookup(b, ref).value, m)
    requires m.labelA == Lookup(b, ref).value.labelA
    ensures FromSeeding(setup, Store(b, ref, m))
  {
    if ref.Slot? && ref.round == 1 {
      StartedIgnoresResults(RowsAt(b, 1), ref.slot, m);
      if Started(RowsAt(b, 1)) {
        RoundFitsIgnoresResults(RowsAt(b, 1), ByesAt(b, 1), Seeded(setup, b), ref.slot, m);
      }
    }
  }

  lemma {:induction false} StoredKeepsFromSeeding(setup: Setup, b: Bracket, step: Step)
    requires FromSeeding(setup, b) && RowsAllOk(b) && Enabled(b, step) && SettledStep(b, step)
    ensures FromSeeding(setup, Stored(b, step))
  {
    match step
    case SetStatus(ref, to) =>
      ResultKeepsFromSeeding(setup, b, ref, Lookup(b, ref).value.(status := to));
    case Decide(ref, winner, how, _) =>
      ResultKeepsFromSeeding(setup, b, ref, Lookup(b, ref).value.(status := how, winner := winner));
    case Redeclare(ref, winner, _) =>
      ResultKeepsFromSeeding(setup, b, ref, Lookup(b, ref).value.(winner := Some(winner)));
    case Correct(ref, winner, _) =>
      DeletionKeepsFromSeeding(setup, b, ref);
      ResultKeepsFromSeeding(setup, DeleteDownstream(b, ref), ref,
                             Lookup(b, ref).value.(status := Finished, winner := winner));
    case _ =>
  }

  lemma {:induction false} DeletionKeepsFromSeeding(setup: Setup, b: Bracket, ref: Ref)
    requires FromSeeding(setup, b) && RowsAllOk(b) && Lookup(b, ref).Some?
    ensures FromSeeding(setup, DeleteDownstream(b, ref))
    ensures Lookup(DeleteDownstream(b, ref), ref) == Lookup(b, ref)
  {
    assert ref.Slot? ==> ref.round in b.rounds && ref.round >= 1;
    assert SameRound(b, DeleteDownstream(b, ref), 1);
  }

  lemma {:induction false} FillKeepsUnlabelled(rows: Rows, pairs: seq<Pair>, date: Date)
    requires Unlabelled(rows)
    ensures Unlabelled(FillRound(rows, pairs, date))
  {
    if pairs != [] {
      FillKeepsUnlabelled(rows, pairs[..|pairs| - 1], date);
    }
  }

  lemma {:induction false} ProgressKeepsFromSeeding(setup: Setup, b: Bracket, date: Date)
    requires FromSeeding(setup, b) && RowsAllOk(b) && SourceOk(b.source)
    ensures FromSeeding(setup, Progress(setup, b, date))
  {
    UnlabelledHasNoPublication(b.source, RowsAt(b, 1));
    if DefinedRounds(b) != {} {
      var last := MaxOf(DefinedRounds(b));
      AdvanceShape(setup, b, last, date);
      assert last in b.rounds && last >= 1;
      assert SameRound(b, Progress(setup, b, date), 1);
    } else if !b.source.Pending? {
      SeededProper(setup, b);
      FillKeepsUnlabelled(RowsAt(b, 1), Seeded(setup, b), date);
      assert 1 in b.rounds ==> RowsOk(RowsAt(b, 1));
      FillMakesRound(RowsAt(b, 1), ByesAt(b, 1), Seeded(setup, b), date);
    }
  }

  lemma {:induction false} TakeKeepsFromSeeding(setup: Setup, b: Bracket, step: Step)
    requires FromSeeding(setup, b) && SettledStep(b, step)
    requires Consistent(Seeded(setup, b), b) && (Enabled(b, step) ==> Safe(setup, b, step))
    ensures FromSeeding(setup, Take(setup, b, step))
  {
    if Enabled(b, step) {
      StoredKeepsFromSeeding(setup, b, step);
      StoredIsConsistent(setup, b, step);
      if !Silent(step) {
        ProgressKeepsFromSeeding(setup, Stored(b, step), step.date);
      }
    }
  }

  lemma {:induction false} RunKeepsFromSeeding(setup: Setup, b: Bracket, steps: seq<Step>)
    requires Initial(b) && Unlabelled(RowsAt(b, 1)) && SafeRun(setup, b, steps) && SettledRun(setup, b, steps)
    ensures FromSeeding(setup, Run(setup, b, steps))
  {
    if steps != [] {
      var n := |steps| - 1;
      RunKeepsFromSeeding(setup, b, steps[..n]);
      RunKeepsConsistent(setup, b, steps[..n]);
      TakeKeepsFromSeeding(setup, Run(setup, b, steps[..n]), steps[n]);
    } else {
      assert !Started(RowsAt(b, 1));
    }
  }

  // ----- Counting stored matches -----

  function MatchesUpTo(b: Bracket, round: nat): nat {
    if round == 0 then 0 else MatchesUpTo(b, round - 1) + |RowsAt(b, round).Keys|
  }

  /** The slots in which the pairs have a match. */
  function RealSlots(pairs: seq<Pair>): set<nat> {
    if pairs == [] then {}
    else
      var last := pairs[|pairs| - 1];
      RealSlots(pairs[..|pairs| - 1]) + if last.entryB.Some? then {last.order} else {}
  }

  lemma {:induction false} RealSlotsAt(pairs: seq<Pair>, s: nat)
    ensures s in RealSlots(pairs) <==> RealSlot(pairs, s)
  {
    if pairs != [] {
      var n := |pairs| - 1;
      RealSlotsAt(pairs[..n], s);
      if RealSlot(pairs, s) {
        var i :| 0 <= i < |pairs| && pairs[i].order == s && pairs[i].entryB.Some?;
        assert i < n ==> pairs[..n][i] == pairs[i];
      }
      if RealSlot(pairs[..n], s) {
        var i :| 0 <= i < n && pairs[..n][i].order == s && pairs[..n][i].entryB.Some?;
        assert pairs[i] == pairs[..n][i];
      }
    }
  }

  lemma {:induction false} RealSlotsCount(pairs: seq<Pair>)
    requires InOrder(pairs)
    ensures |RealSlots(pairs)| == MatchesIn(pairs)
  {
    if pairs != [] {
      var n := |pairs| - 1;
      RealSlotsCount(pairs[..n]);
      RealSlotsAt(pairs[..n], pairs[n].order);
    }
  }

  /** A round that is all filled has one match for every pair of two. */
  lemma {:induction false} RowsOfPairing(rows: Rows, byes: Byes, pairs: seq<Pair>)
    requires Defined(rows) && RoundFits(rows, byes, pairs)
    ensures |rows.Keys| == MatchesIn(pairs)
  {
    forall s ensures s in rows.Keys <==> s in RealSlots(pairs) {
      RealSlotsAt(pairs, s);
      if RealSlot(pairs, s) {
        var i :| 0 <= i < |pairs| && pairs[i].order == s && pairs[i].entryB.Some?;
        assert Fits(rows, pairs[i]);
      }
    }
    assert rows.Keys == RealSlots(pairs);
    RealSlotsCount(pairs);
  }

  // ----- The stored rounds of a seeded bracket -----

  ghost function Slots(b: Bracket): seq<Entry> {
    if b.source.Pending? then [] else b.source.slots
  }

  /** The round follows these pairs and is where the number of entries puts it: so many slots, so many matches before. */
  ghost predicate InPlace(n: nat, b: Bracket, round: nat, pairs: seq<Pair>) {
    && round >= 1
    && RoundFits(RowsAt(b, round), ByesAt(b, round), pairs)
    && Places(n, round, pairs, MatchesUpTo(b, round - 1))
  }

  /** Of n entries, `before` matches have left those that this round pairs. */
  predicate Places(n: nat, round: nat, pairs: seq<Pair>, before: nat) {
    pairs != [] && round + CeilLog2(|pairs|) == CeilLog2(n) && before + MatchesIn(pairs) + |pairs| == n
  }

  /** From one round to the next the slots are halved, and every match takes one entry out. */
  lemma {:induction false} NextPlaces(n: nat, round: nat, pairs: seq<Pair>, before: nat, ahead: seq<Entry>)
    requires Places(n, round, pairs, before) && |ahead| == |pairs| >= 2
    ensures Places(n, round + 1, SequentialPairs(ahead), before + MatchesIn(pairs))
  {
    MatchesOfSequential(ahead);
    HalvedSlots(|pairs|);
  }

  lemma {:induction false} FirstInPlace(setup: Setup, b: Bracket)
    requires FromSeeding(setup, b) && SourceOk(b.source) && Started(RowsAt(b, 1))
    ensures |Slots(b)| >= 2 && InPlace(|Slots(b)|, b, 1, Seeded(setup, b))
  {
    var pairs := Seeded(setup, b);
    var s :| s in RowsAt(b, 1) && Filled(RowsAt(b, 1)[s]);
    assert RealSlot(pairs, s);
    SeededSlots(Slots(b), setup.crossing);
    SeededMatches(Slots(b), setup.crossing);
  }

  lemma {:induction false} NextInPlace(n: nat, b: Bracket, round: nat, next: nat, pairs: seq<Pair>)
    requires InPlace(n, b, round, pairs) && RowsOk(RowsAt(b, round)) && Complete(RowsAt(b, round))
    requires next == round + 1 && Started(RowsAt(b, next)) && LaterOk(b, next)
    ensures InPlace(n, b, next, SequentialPairs(Advancers(RowsAt(b, round), ByesAt(b, round))))
  {
    TwoGoOn(b, round, next);
    PlacesAfter(n, b, round, pairs);
    LaterFits(b, round, next);
    PutInPlace(n, b, round, next, SequentialPairs(Advancers(RowsAt(b, round), ByesAt(b, round))));
  }

  lemma {:induction false} PutInPlace(n: nat, b: Bracket, round: nat, next: nat, pairs: seq<Pair>)
    requires next == round + 1 && RoundFits(RowsAt(b, next), ByesAt(b, next), pairs)
    requires Places(n, round + 1, pairs, MatchesUpTo(b, round))
    ensures InPlace(n, b, next, pairs)
  {
  }

  lemma {:induction false} PlacesAfter(n: nat, b: Bracket, round: nat, pairs: seq<Pair>)
    requires InPlace(n, b, round, pairs) && RowsOk(RowsAt(b, round)) && Complete(RowsAt(b, round))
    requires |Advancers(RowsAt(b, round), ByesAt(b, round))| >= 2
    ensures
      Places(n, round + 1, SequentialPairs(Advancers(RowsAt(b, round), ByesAt(b, round))), MatchesUpTo(b, round))
  {
    var ahead := Advancers(RowsAt(b, round), ByesAt(b, round));
    CompletedCounts(RowsAt(b, round), ByesAt(b, round), pairs);
    NextPlaces(n, round, pairs, MatchesUpTo(b, round - 1), ahead);
    OneRoundMore(b, round);
  }

  lemma {:induction false} OneRoundMore(b: Bracket, round: nat)
    requires round >= 1
    ensures MatchesUpTo(b, round) == MatchesUpTo(b, round - 1) + |RowsAt(b, round).Keys|
  {
  }

  lemma {:induction false} CompletedCounts(rows: Rows, byes: Byes, pairs: seq<Pair>)
    requires RowsOk(rows) && Complete(rows) && RoundFits(rows, byes, pairs)
    ensures |Advancers(rows, byes)| == |pairs| && |rows.Keys| == MatchesIn(pairs)
  {
    CompletedRoundIsPlayed(rows, byes, pairs);
    RowsOfPairing(rows, byes, pairs);
  }

  lemma {:induction false} LaterFits(b: Bracket, round: nat, next: nat)
    requires next == round + 1 && round >= 1 && LaterOk(b, next) && Started(RowsAt(b, next))
    ensures Complete(RowsAt(b, round))
    ensures RoundFits(RowsAt(b, next), ByesAt(b, next), SequentialPairs(Advancers(RowsAt(b, round), ByesAt(b, round))))
  {
  }

  lemma {:induction false} TwoGoOn(b: Bracket, round: nat, next: nat)
    requires next == round + 1 && round >= 1 && Complete(RowsAt(b, round))
    requires LaterOk(b, next) && Started(RowsAt(b, next))
    ensures |Advancers(RowsAt(b, round), ByesAt(b, round))| >= 2
  {
    LaterFits(b, round, next);
    MatchTakesTwo(RowsAt(b, next), ByesAt(b, next), Advancers(RowsAt(b, round), ByesAt(b, round)));
  }

  lemma {:induction false} MatchTakesTwo(rows: Rows, byes: Byes, ahead: seq<Entry>)
    requires RoundFits(rows, byes, SequentialPairs(ahead)) && Started(rows)
    ensures |ahead| >= 2
  {
    var s :| s in rows && Filled(rows[s]);
    assert RealSlot(SequentialPairs(ahead), s);
  }

  lemma {:induction false} HalvedSlots(p: nat)
    requires p >= 2
    ensures CeilLog2((p + 1) / 2) + 1 == CeilLog2(p)
  {
  }

  /** Every round with participants is in place. */
  lemma {:induction false} RoundInPlace(setup: Setup, b: Bracket, round: nat) returns (pairs: seq<Pair>)
    requires FromSeeding(setup, b) && Consistent(Seeded(setup, b), b) && Started(RowsAt(b, round))
    ensures |Slots(b)| >= 2 && InPlace(|Slots(b)|, b, round, pairs)
    ensures round == 1 ==> pairs == Seeded(setup, b)
    decreases round, 1
  {
    assert round in b.rounds;
    RoundNumber(b, round);
    if round == 1 {
      FirstInPlace(setup, b);
      pairs := Seeded(setup, b);
    } else {
      pairs := LaterInPlace(setup, b, round - 1, round);
    }
  }

  lemma {:induction false} LaterInPlace(setup: Setup, b: Bracket, before: nat, round: nat) returns (pairs: seq<Pair>)
    requires FromSeeding(setup, b) && Consistent(Seeded(setup, b), b) && Started(RowsAt(b, round))
    requires before >= 1 && round == before + 1
    ensures |Slots(b)| >= 2 && InPlace(|Slots(b)|, b, round, pairs)
    decreases round, 0
  {
    assert LaterOk(b, round);
    RoundBefore(b, round);
    var earlier := RoundInPlace(setup, b, before);
    NextInPlace(|Slots(b)|, b, before, round, earlier);
    pairs := SequentialPairs(Advancers(RowsAt(b, before), ByesAt(b, before)));
  }

  lemma {:induction false} RoundBefore(b: Bracket, round: nat)
    requires RowsAllOk(b) && LaterOk(b, round) && round >= 2 && Started(RowsAt(b, round))
    ensures Complete(RowsAt(b, round - 1)) && Started(RowsAt(b, round - 1)) && RowsOk(RowsAt(b, round - 1))
  {
    DefinedHasMatch(RowsAt(b, round - 1));
    assert round - 1 in b.rounds;
  }

  /** The round is complete and leaves one entry. */
  ghost predicate ChampionAt(b: Bracket, round: nat) {
    Complete(RowsAt(b, round)) && |Advancers(RowsAt(b, round), ByesAt(b, round))| == 1
  }

  ghost predicate HasEnded(b: Bracket) {
    exists round: nat :: ChampionAt(b, round)
  }

  lemma {:induction false} CompletedInPlace(setup: Setup, b: Bracket, round: nat) returns (pairs: seq<Pair>)
    requires FromSeeding(setup, b) && Consistent(Seeded(setup, b), b) && Complete(RowsAt(b, round))
    ensures |Slots(b)| >= 2 && InPlace(|Slots(b)|, b, round, pairs) && RowsOk(RowsAt(b, round))
    ensures round == 1 ==> pairs == Seeded(setup, b)
    ensures |Advancers(RowsAt(b, round), ByesAt(b, round))| == |pairs|
    ensures MatchesUpTo(b, round) + |pairs| == |Slots(b)|
  {
    DefinedHasMatch(RowsAt(b, round));
    pairs := RoundInPlace(setup, b, round);
    assert round in b.rounds && RowsOk(RowsAt(b, round));
    CompletedCounts(RowsAt(b, round), ByesAt(b, round), pairs);
    OneRoundMore(b, round);
  }

  /**
   * After every safe run in which the entries change only before the first round has participants: a completed round
   * is at most the ceil(log2 n)-th, leaves a champion if and only if it is that one, and then n - 1 matches are stored.
   */
  lemma {:induction false} StoredKnockoutTakesLogRounds(setup: Setup, b: Bracket, steps: seq<Step>, last: nat)
    requires Initial(b) && Unlabelled(RowsAt(b, 1)) && SafeRun(setup, b, steps) && SettledRun(setup, b, steps)
    requires Complete(RowsAt(Run(setup, b, steps), last))
    ensures
      var now := Run(setup, b, steps);
      var n := |Slots(now)|;
      && n >= 2 && last <= CeilLog2(n)
      && (ChampionAt(now, last) <==> last == CeilLog2(n))
      && (ChampionAt(now, last) <==> MatchesUpTo(now, last) == n - 1)
  {
    var now := Run(setup, b, steps);
    RunKeepsFromSeeding(setup, b, steps);
    RunKeepsConsistent(setup, b, steps);
    var pairs := CompletedInPlace(setup, now, last);
    OnlyOneHalvesToNothing(|pairs|);
  }

  lemma {:induction false} OnlyOneHalvesToNothing(p: nat)
    requires p >= 1
    ensures CeilLog2(p) == 0 <==> p == 1
  {
  }

  /** Read as played rounds, they are a knockout from the seeding: one loss for everybody but the champion. */
  lemma {:induction false} StoredKnockoutIsFromSeeding(setup: Setup, b: Bracket, steps: seq<Step>, last: nat)
    returns (rounds: seq<Round>)
    requires Initial(b) && Unlabelled(RowsAt(b, 1)) && SafeRun(setup, b, steps) && SettledRun(setup, b, steps)
    requires Complete(RowsAt(Run(setup, b, steps), last))
    ensures |rounds| == last && KnockoutRun(rounds) && rounds[0].pairs == Seeded(setup, Run(setup, b, steps))
    ensures
      var now := Run(setup, b, steps);
      && rounds[last - 1].advancers == Advancers(RowsAt(now, last), ByesAt(now, last))
      && (HasChampion(rounds) <==> last == CeilLog2(|Slots(now)|))
      && (HasChampion(rounds) ==>
            && Matches(rounds) == |Slots(now)| - 1 && Champion(rounds) in Slots(now)
            && forall e | e in Slots(now) :: Losses(rounds, e) == if e == Champion(rounds) then 0 else 1)
  {
    var now := Run(setup, b, steps);
    RunKeepsFromSeeding(setup, b, steps);
    RunKeepsConsistent(setup, b, steps);
    rounds := RoundsFromSeeding(setup, now, last);
    KnockoutFromSeeding(Slots(now), setup.crossing, rounds);
  }

  lemma {:induction false} RoundsFromSeeding(setup: Setup, b: Bracket, last: nat) returns (rounds: seq<Round>)
    requires FromSeeding(setup, b) && Consistent(Seeded(setup, b), b) && Complete(RowsAt(b, last))
    ensures |Slots(b)| >= 2 && Distinct(Slots(b)) && Seeded(setup, b) == SeedPairs(Slots(b), setup.crossing)
    ensures |rounds| == last && KnockoutRun(rounds) && rounds[0].pairs == Seeded(setup, b)
    ensures rounds[last - 1].advancers == Advancers(RowsAt(b, last), ByesAt(b, last))
  {
    AllBeforeComplete(b, last);
    var pairs := CompletedInPlace(setup, b, 1);
    SeededProper(setup, b);
    CompletedRoundIsPlayed(RowsAt(b, 1), ByesAt(b, 1), Seeded(setup, b));
    var first := Round(Seeded(setup, b), Advancers(RowsAt(b, 1), ByesAt(b, 1)));
    FirstRoundPlays(b, first);
    rounds := CompletedRoundsAsRun(b, first, last);
  }

  // ----- A round that is blocked -----

  /** Once a match of one of those rounds is lost, there is no champion, whatever happens afterwards. */
  lemma {:induction false} LostMatchMeansNoChampion(
      setup: Setup, b: Bracket, steps: seq<Step>, more: seq<Step>, round: nat, slot: nat)
    requires Initial(b) && Unlabelled(RowsAt(b, 1))
    requires SafeRun(setup, b, steps + more) && SettledRun(setup, b, steps + more)
    requires LostAt(Run(setup, b, steps), round, slot)
    requires 1 <= round <= CeilLog2(|Slots(Run(setup, b, steps + more))|)
    ensures !HasEnded(Run(setup, b, steps + more))
  {
    var now := Run(setup, b, steps + more);
    RunJoined(setup, b, steps, more);
    LostMatchBlocksForGood(setup, Run(setup, b, steps), more, round, slot);
    forall last: nat ensures !ChampionAt(now, last) {
      if Complete(RowsAt(now, last)) {
        StoredKnockoutTakesLogRounds(setup, b, steps + more, last);
        if last >= round {
          RunKeepsConsistent(setup, b, steps + more);
          CompleteAt(now, last, round);
        }
      }
    }
  }

  lemma {:induction false} RunJoined(setup: Setup, b: Bracket, first: seq<Step>, second: seq<Step>)
    ensures Run(setup, b, first + second) == Run(setup, Run(setup, b, first), second)
  {
    if second == [] {
      assert first + second == first;
    } else {
      var n := |second| - 1;
      assert (first + second)[..|first| + n] == first + second[..n];
      RunJoined(setup, b, first, second[..n]);
    }
  }

  /** Four entries; of the bracket only the final was published, before anybody was known to play it. */
  const FINAL_PUBLISHED: Bracket :=
    Bracket(EntryList([1, 2, 3, 4]), map[2 := map[1 := KoMatch(None, None, Some(1), Some(2), None, Scheduled, 0, 7)]],
            None, map[])

  /**
   * The final is cancelled before the finalists are known. Its round is never filled again, whatever happens, and over
   * every safe run with these entries nobody ever becomes champion.
   */
  lemma {:induction false} CancelledFinalEndsNothing(setup: Setup, more: seq<Step>)
    ensures Initial(FINAL_PUBLISHED) && Unlabelled(RowsAt(FINAL_PUBLISHED, 1))
    ensures
      var steps := [SetStatus(Slot(2, 1), Cancelled)] + more;
      var now := Run(setup, FINAL_PUBLISHED, steps);
      && !Defined(RowsAt(now, 2))
      && (SafeRun(setup, FINAL_PUBLISHED, steps) && SettledRun(setup, FINAL_PUBLISHED, steps) && |Slots(now)| == 4 ==>
            !HasEnded(now))
  {
    var cancel := [SetStatus(Slot(2, 1), Cancelled)];
    assert cancel[..0] == [];
    FinalCancelled(setup, cancel);
    RunJoined(setup, FINAL_PUBLISHED, cancel, more);
    LostMatchBlocksForGood(setup, Run(setup, FINAL_PUBLISHED, cancel), more, 2, 1);
    var now := Run(setup, FINAL_PUBLISHED, cancel + more);
    if SafeRun(setup, FINAL_PUBLISHED, cancel + more) && SettledRun(setup, FINAL_PUBLISHED, cancel + more) &&
       |Slots(now)| == 4 {
      LostInRoundTwo(setup, cancel, more);
    }
  }

  lemma {:induction false} LostInRoundTwo(setup: Setup, cancel: seq<Step>, more: seq<Step>)
    requires LostAt(Run(setup, FINAL_PUBLISHED, cancel), 2, 1)
    requires SafeRun(setup, FINAL_PUBLISHED, cancel + more) && SettledRun(setup, FINAL_PUBLISHED, cancel + more)
    requires |Slots(Run(setup, FINAL_PUBLISHED, cancel + more))| == 4
    ensures !HasEnded(Run(setup, FINAL_PUBLISHED, cancel + more))
  {
    assert CeilLog2(4) == 2;
    LostMatchMeansNoChampion(setup, FINAL_PUBLISHED, cancel, more, 2, 1);
  }

  lemma {:induction false} FinalCancelled(setup: Setup, cancel: seq<Step>)
    requires cancel == [SetStatus(Slot(2, 1), Cancelled)]
    ensures
      var now := Run(setup, FINAL_PUBLISHED, cancel);
      LostAt(now, 2, 1) && !Filled(RowsAt(now, 2)[1])
  {
    assert cancel[..0] == [];
    assert Run(setup, FINAL_PUBLISHED, cancel) == Take(setup, FINAL_PUBLISHED, cancel[0]);
  }
}
