/** Runs of a knockout: results, status changes, corrections and recomputations. */
module BracketRuns {
  import opened Wrappers
  import opened Entries
  import NatSets
  import opened Statuses
  import opened Seeding
  import opened Knockout
  import opened KnockoutPhase
  import opened BracketInvariant
  import opened BracketResults

  // ----- Steps -----

  /**
   * `Redeclare` is a walkover declared on a match that already is one. The groups' results can change with a
   * recomputation or without one, or be corrected, which clears an untouched bracket.
   */
  datatype Step =
    | SetStatus(ref: Ref, to: Status)
    | Decide(ref: Ref, winner: Option<Entry>, how: Status, date: Date)
    | Redeclare(ref: Ref, other: Entry, date: Date)
    | Correct(ref: Ref, winner: Option<Entry>, date: Date)
    | ChangeSource(source: Source)
    | Classify(source: Source, date: Date)
    | CorrectGroups(source: Source, date: Date)
    | Recompute(date: Date)

  /** One of the two sides, known or not. */
  predicate IsSide(m: KoMatch, winner: Option<Entry>) {
    winner == m.entryA || winner == m.entryB
  }

  predicate Undecided(status: Status) {
    status.Scheduled? || status.Live? || status.Postponed?
  }

  ghost predicate Enabled(b: Bracket, step: Step) {
    match step
    case SetStatus(ref, to) =>
      Lookup(b, ref).Some? && CanTransition(Lookup(b, ref).value.status, to) && !to.Walkover?
    case Decide(ref, winner, how, _) =>
      && Lookup(b, ref).Some? && IsSide(Lookup(b, ref).value, winner) && Undecided(Lookup(b, ref).value.status)
      && Official(how) && (how.Walkover? ==> winner.Some?)
    case Redeclare(ref, winner, _) =>
      Lookup(b, ref).Some? && Lookup(b, ref).value.status.Walkover? && IsEntrant(Lookup(b, ref).value, winner)
    case Correct(ref, winner, _) =>
      && Lookup(b, ref).Some? && IsSide(Lookup(b, ref).value, winner)
      && Official(Lookup(b, ref).value.status) && DownstreamUntouched(b, ref)
    case ChangeSource(source) => SourceOk(source)
    case Classify(source, _) => SourceOk(source)
    case CorrectGroups(source, _) => SourceOk(source) && BracketUntouched(b)
    case Recompute(_) => true
  }

  /** What the step stores, before the recomputation that follows. */
  ghost function Stored(b: Bracket, step: Step): Bracket
    requires Enabled(b, step)
  {
    match step
    case SetStatus(ref, to) => Store(b, ref, Lookup(b, ref).value.(status := to))
    case Decide(ref, winner, how, _) => Store(b, ref, Lookup(b, ref).value.(status := how, winner := winner))
    case Redeclare(ref, winner, _) => Store(b, ref, Lookup(b, ref).value.(winner := Some(winner)))
    case Correct(ref, winner, _) =>
      Store(DeleteDownstream(b, ref), ref, Lookup(b, ref).value.(status := Finished, winner := winner))
    case ChangeSource(source) => b.(source := source)
    case Classify(source, _) => b.(source := source)
    case CorrectGroups(source, _) => b.(source := source, rounds := map[], third := None)
    case Recompute(_) => b
  }

  /** No recomputation follows. */
  predicate Silent(step: Step) {
    step.SetStatus? || step.ChangeSource?
  }

  ghost function Take(setup: Setup, b: Bracket, step: Step): Bracket {
    if !Enabled(b, step) then b
    else if Silent(step) then Stored(b, step)
    else Progress(setup, Stored(b, step), step.date)
  }

  ghost function Run(setup: Setup, b: Bracket, steps: seq<Step>): Bracket {
    if steps == [] then b else Take(setup, Run(setup, b, steps[..|steps| - 1]), steps[|steps| - 1])
  }

  /** The first round is all filled, has not begun, or agrees with what the new source seeds. */
  ghost predicate SourceFits(setup: Setup, b: Bracket, source: Source) {
    Started(RowsAt(b, 1)) && !Defined(RowsAt(b, 1)) ==>
      !source.Pending? && RoundFits(RowsAt(b, 1), ByesAt(b, 1), Seeded(setup, b.(source := source)))
  }

  /** What the code does not check: no decided match is re-decided under later rounds, and no publication half used. */
  ghost predicate Safe(setup: Setup, b: Bracket, step: Step)
    requires Enabled(b, step)
  {
    && (step.Redeclare? ==>
          Lookup(b, step.ref).value.winner == Some(step.other) || !BuiltUpon(b, step.ref))
    && (step.ChangeSource? || step.Classify? ==> SourceFits(setup, b, step.source))
    && (!Silent(step) ==> FirstRoundSafe(setup, Stored(b, step)))
  }

  ghost predicate SafeRun(setup: Setup, b: Bracket, steps: seq<Step>) {
    steps == [] ||
    (SafeRun(setup, b, steps[..|steps| - 1]) &&
     (Enabled(Run(setup, b, steps[..|steps| - 1]), steps[|steps| - 1]) ==>
        Safe(setup, Run(setup, b, steps[..|steps| - 1]), steps[|steps| - 1])))
  }

  /** A bracket as it is published: labels, dates and venues, but no result yet. */
  predicate Blank(m: KoMatch) {
    !Filled(m) && m.status.Scheduled? && m.winner.None?
  }

  ghost predicate Initial(b: Bracket) {
    && SourceOk(b.source)
    && (forall r | r in b.rounds :: r >= 1 && forall s | s in b.rounds[r] :: s >= 1 && Blank(b.rounds[r][s]))
    && (b.third.Some? ==> Blank(b.third.value))
  }

  // ----- Each step keeps the invariant -----

  /** The exact condition under which a bracket is consistent for another source too. */
  lemma {:induction false} SourceKeepsConsistentExactly(setup: Setup, b: Bracket, source: Source)
    requires Consistent(Seeded(setup, b), b) && SourceOk(source)
    ensures
      var b' := b.(source := source);
      Consistent(Seeded(setup, b'), b') <==> SourceFits(setup, b, source)
  {
    var b' := b.(source := source);
    SourceKeepsLater(b, b');
    FirstForOtherSource(setup, b, source);
  }

  lemma {:induction false} FirstForOtherSource(setup: Setup, b: Bracket, source: Source)
    requires FirstOk(Seeded(setup, b), b) && SourceOk(source)
    ensures
      var b' := b.(source := source);
      FirstOk(Seeded(setup, b'), b') <==> SourceFits(setup, b, source)
  {
    var b' := b.(source := source);
    SeededProper(setup, b');
    if Started(RowsAt(b, 1)) {
      var pairs :| FirstRoundFrom(Seeded(setup, b), b, pairs);
      if Defined(RowsAt(b, 1)) {
        assert FirstRoundFrom(Seeded(setup, b'), b', pairs);
      } else {
        assert SourceFits(setup, b, source) ==> FirstRoundFrom(Seeded(setup, b'), b', Seeded(setup, b'));
      }
    }
  }

  lemma {:induction false} SourceKeepsLater(b: Bracket, b': Bracket)
    requires b' == b.(source := b'.source) && (forall r: nat :: LaterOk(b, r)) && ThirdOk(b)
    ensures (forall r: nat :: LaterOk(b', r)) && ThirdOk(b')
  {
    forall r: nat ensures LaterOk(b', r) {
      LaterOkSame(b, b', r);
    }
    if b.third.Some? && Filled(b.third.value) {
      var r: nat :| ThirdFrom(b, r);
      ThirdFromSame(b, b', r);
    }
  }

  /** Declaring a walkover again does no harm while nothing has been built on it. */
  lemma {:induction false} RedeclareStepKeepsConsistent(seeded: seq<Pair>, b: Bracket, ref: Ref, winner: Entry)
    requires Consistent(seeded, b) && Enabled(b, Redeclare(ref, winner, 0))
    requires Lookup(b, ref).value.winner == Some(winner) || !BuiltUpon(b, ref)
    ensures Consistent(seeded, Store(b, ref, Lookup(b, ref).value.(winner := Some(winner))))
  {
    var m := Lookup(b, ref).value.(winner := Some(winner));
    MatchFound(b, ref);
    if Lookup(b, ref).value.winner == Some(winner) {
      StoreSame(b, ref);
    } else if ref.Third? {
      ThirdKeepsConsistent(seeded, b, m);
    } else {
      RedeclareKeepsConsistent(seeded, b, ref.round, ref.slot, winner);
    }
  }

  /** What a safe step stores is consistent for the source it leaves. */
  lemma {:induction false} StoredIsConsistent(setup: Setup, b: Bracket, step: Step)
    requires Consistent(Seeded(setup, b), b) && Enabled(b, step) && Safe(setup, b, step)
    ensures Consistent(Seeded(setup, Stored(b, step)), Stored(b, step))
  {
    var seeded := Seeded(setup, b);
    if step.SetStatus? || step.Decide? || step.Correct? {
      MatchFound(b, step.ref);
    }
    match step
    case SetStatus(ref, to) =>
      ResultStepKeepsConsistent(seeded, b, ref, Lookup(b, ref).value.(status := to));
    case Decide(ref, winner, how, date) =>
      ResultStepKeepsConsistent(seeded, b, ref, Lookup(b, ref).value.(status := how, winner := winner));
    case Redeclare(ref, winner, date) =>
      RedeclareStepKeepsConsistent(seeded, b, ref, winner);
    case Correct(ref, winner, date) =>
      CorrectionKeepsConsistent(seeded, b, ref, Lookup(b, ref).value.(status := Finished, winner := winner));
    case ChangeSource(source) =>
      SourceKeepsConsistentExactly(setup, b, source);
    case Classify(source, date) =>
      SourceKeepsConsistentExactly(setup, b, source);
    case CorrectGroups(source, date) =>
    case Recompute(date) =>
  }

  lemma {:induction false} TakeKeepsConsistent(setup: Setup, b: Bracket, step: Step)
    requires Consistent(Seeded(setup, b), b) && (Enabled(b, step) ==> Safe(setup, b, step))
    ensures var b' := Take(setup, b, step); Consistent(Seeded(setup, b'), b')
  {
    if Enabled(b, step) {
      StoredIsConsistent(setup, b, step);
      if !Silent(step) {
        ProgressKeepsConsistent(setup, Stored(b, step), step.date);
      }
    }
  }

  lemma {:induction false} RunKeepsConsistent(setup: Setup, b: Bracket, steps: seq<Step>)
    requires Initial(b) && SafeRun(setup, b, steps)
    ensures var b' := Run(setup, b, steps); Consistent(Seeded(setup, b'), b')
  {
    if steps != [] {
      RunKeepsConsistent(setup, b, steps[..|steps| - 1]);
      TakeKeepsConsistent(setup, Run(setup, b, steps[..|steps| - 1]), steps[|steps| - 1]);
    }
  }

  // ----- The theorems -----

  /** The entrants of this match play each other, have no bye, and are in no other filled match. */
  ghost predicate PlaysOnce(rows: Rows, byes: Byes, s: nat)
    requires s in rows
  {
    && rows[s].entryA != rows[s].entryB
    && forall e: Entry | IsEntrant(rows[s], e) ::
         !InByes(byes, e) && forall t: nat | t in rows && t != s && Filled(rows[t]) :: !IsEntrant(rows[t], e)
  }

  ghost predicate NobodyTwice(rows: Rows, byes: Byes) {
    forall s: nat | s in rows && Filled(rows[s]) :: PlaysOnce(rows, byes, s)
  }

  lemma {:induction false} PlacesApart(rows: Rows, byes: Byes, pairs: seq<Pair>)
    requires RoundFits(rows, byes, pairs) && NoRepeats(pairs)
    ensures NobodyTwice(rows, byes)
  {
    forall s: nat | s in rows && Filled(rows[s]) ensures PlaysOnce(rows, byes, s) {
      var k := PairAt(rows, byes, pairs, s);
      assert EntrantAt(pairs, 2 * k) != EntrantAt(pairs, 2 * k + 1);
      forall e: Entry | IsEntrant(rows[s], e) ensures !InByes(byes, e) {
        NoByeToo(byes, pairs, k, e);
      }
      forall e: Entry, t: nat | IsEntrant(rows[s], e) && t in rows && t != s && Filled(rows[t])
        ensures !IsEntrant(rows[t], e)
      {
        var l := PairAt(rows, byes, pairs, t);
        assert k != l;
      }
    }
  }

  lemma {:induction false} NoByeToo(byes: Byes, pairs: seq<Pair>, k: nat, e: Entry)
    requires ProperPairs(pairs) && byes == ByesOf(pairs) && NoRepeats(pairs) && k < |pairs| && pairs[k].entryB.Some?
    requires EntrantAt(pairs, 2 * k) == Some(e) || EntrantAt(pairs, 2 * k + 1) == Some(e)
    ensures !InByes(byes, e)
  {
    forall t | t in byes ensures byes[t] != e {
      ByesOfAt(pairs, t);
      var l :| 0 <= l < |pairs| && pairs[l].order == t && pairs[l].entryB.None?;
      assert EntrantAt(pairs, 2 * l) == Some(byes[t]) && l != k;
    }
  }

  lemma {:induction false} PairAt(rows: Rows, byes: Byes, pairs: seq<Pair>, s: nat) returns (k: nat)
    requires RoundFits(rows, byes, pairs) && s in rows && Filled(rows[s])
    ensures k < |pairs| && pairs[k].order == s && pairs[k].entryB.Some?
    ensures EntrantAt(pairs, 2 * k) == rows[s].entryA && EntrantAt(pairs, 2 * k + 1) == rows[s].entryB
  {
    assert RealSlot(pairs, s);
    k :| k < |pairs| && pairs[k].order == s && pairs[k].entryB.Some?;
    assert Fits(rows, pairs[k]);
  }

  predicate WonByEntrants(rows: Rows) {
    forall s | s in rows :: rows[s].winner.Some? && IsEntrant(rows[s], rows[s].winner.value)
  }

  /**
   * After every safe run, each round that has participants follows one pairing: its byes are the pairing's, and every
   * filled match is where the pairing puts it, so that a round without open matches is exactly the pairing. Nobody
   * sits in two places of it; from the second round on it is the consecutive pairing, in slot order, of the winners
   * and byes of the round before, all of whose matches have an official winner among their entrants.
   */
  lemma {:induction false} BracketStaysConsistent(setup: Setup, b: Bracket, steps: seq<Step>, round: nat)
    requires Initial(b) && SafeRun(setup, b, steps) && Started(RowsAt(Run(setup, b, steps), round))
    ensures
      var now := Run(setup, b, steps);
      && round >= 1 && NobodyTwice(RowsAt(now, round), ByesAt(now, round))
      && exists pairs ::
           && FollowsPairing(RowsAt(now, round), ByesAt(now, round), pairs)
           && (round >= 2 ==> PairsAdvancers(now, round, pairs))
  {
    RunKeepsConsistent(setup, b, steps);
    RoundFollows(Seeded(setup, Run(setup, b, steps)), Run(setup, b, steps), round);
  }

  ghost predicate FollowsPairing(rows: Rows, byes: Byes, pairs: seq<Pair>) {
    && NoRepeats(pairs)
    && RoundFits(rows, byes, pairs)
    && (Defined(rows) ==> RoundIs(rows, byes, pairs))
  }

  /** The pairs are the winners and byes of the round before, all of which has been decided. */
  ghost predicate PairsAdvancers(b: Bracket, round: nat, pairs: seq<Pair>)
    requires round >= 2
  {
    && Complete(RowsAt(b, round - 1))
    && pairs == SequentialPairs(Advancers(RowsAt(b, round - 1), ByesAt(b, round - 1)))
    && WonByEntrants(RowsAt(b, round - 1))
  }

  lemma {:induction false} RoundFollows(seeded: seq<Pair>, b: Bracket, round: nat)
    requires Consistent(seeded, b) && Started(RowsAt(b, round))
    ensures round >= 1 && NobodyTwice(RowsAt(b, round), ByesAt(b, round))
    ensures exists pairs ::
      FollowsPairing(RowsAt(b, round), ByesAt(b, round), pairs) && (round >= 2 ==> PairsAdvancers(b, round, pairs))
  {
    var pairs := RoundPairing(seeded, b, round);
    PlacesApart(RowsAt(b, round), ByesAt(b, round), pairs);
    FitsAndFollows(RowsAt(b, round), ByesAt(b, round), pairs);
    if round >= 2 {
      WonAt(b, round - 1);
      assert PairsAdvancers(b, round, pairs);
    }
  }

  lemma {:induction false} FitsAndFollows(rows: Rows, byes: Byes, pairs: seq<Pair>)
    requires NoRepeats(pairs) && RoundFits(rows, byes, pairs)
    ensures FollowsPairing(rows, byes, pairs)
  {
    if Defined(rows) {
      DefinedRoundIs(rows, byes, pairs);
    }
  }

  lemma {:induction false} WonAt(b: Bracket, round: nat)
    requires RowsAllOk(b) && Complete(RowsAt(b, round))
    ensures WonByEntrants(RowsAt(b, round))
  {
    assert round in b.rounds && RowsOk(b.rounds[round]);
  }

  /** After every safe run, a filled third-place match holds the losers of two completed semifinals. */
  lemma {:induction false} ThirdPlaceHoldsSemifinalLosers(setup: Setup, b: Bracket, steps: seq<Step>)
    requires Initial(b) && SafeRun(setup, b, steps)
    ensures
      var now := Run(setup, b, steps);
      now.third.Some? && Filled(now.third.value) ==> exists r :: ThirdFrom(now, r)
  {
    RunKeepsConsistent(setup, b, steps);
  }

  // ----- A walkover declared again on a result that was built on -----

  /**
   * The recomputation that follows does not repair it: once the next round is all filled, the round keeps a former
   * winner who no longer went on.
   */
  lemma {:induction false} RedeclareBreaksForGood(
      setup: Setup, b: Bracket, round: nat, slot: nat, come: Entry, date: Date)
    requires Consistent(Seeded(setup, b), b) && Enabled(b, Redeclare(Slot(round, slot), come, date))
    requires RowsAt(b, round)[slot].winner != Some(come) && Defined(RowsAt(b, round + 1))
    ensures
      var b' := Take(setup, b, Redeclare(Slot(round, slot), come, date));
      && !LaterOk(b', round + 1) && SameRound(b, b', round + 1)
      && RowsAt(b', round) == RowsAt(b, round)[slot := RowsAt(b, round)[slot].(winner := Some(come))]
  {
    var stored := Store(b, Slot(round, slot), RowsAt(b, round)[slot].(winner := Some(come)));
    RedeclaredUnderDefined(Seeded(setup, b), b, round, slot, come);
    assert Stored(b, Redeclare(Slot(round, slot), come, date)) == stored;
    DefinedRoundsStay(setup, stored, round + 1, date);
    var now := Progress(setup, stored, date);
    assert SameRound(stored, now, round) && SameRound(stored, now, round + 1);
  }

  lemma {:induction false} RedeclaredUnderDefined(seeded: seq<Pair>, b: Bracket, round: nat, slot: nat, come: Entry)
    requires Consistent(seeded, b) && slot in RowsAt(b, round) && IsEntrant(RowsAt(b, round)[slot], come)
    requires RowsAt(b, round)[slot].winner != Some(come) && Defined(RowsAt(b, round + 1))
    ensures
      var stored := Store(b, Slot(round, slot), RowsAt(b, round)[slot].(winner := Some(come)));
      !LaterOk(stored, round + 1) && SameRound(b, stored, round + 1)
  {
    var stored := Store(b, Slot(round, slot), RowsAt(b, round)[slot].(winner := Some(come)));
    DefinedRoundIsBuiltOn(seeded, b, round, slot);
    StoredIsRedeclared(b, round, slot, come);
    LaterAfterRedeclare(seeded, b, stored, round, slot, come);
    assert SameRound(b, stored, round + 1);
  }

  /** A recomputation changes no round up to one that is all filled. */
  lemma {:induction false} DefinedRoundsStay(setup: Setup, b: Bracket, round: nat, date: Date)
    requires Defined(RowsAt(b, round))
    ensures forall r: nat | r <= round :: SameRound(b, Progress(setup, b, date), r)
    ensures LaterOk(b, round) <==> LaterOk(Progress(setup, b, date), round)
  {
    assert round in DefinedRounds(b);
    var last := NatSets.MaxOf(DefinedRounds(b));
    assert round <= last;
    AdvanceShape(setup, b, last, date);
    var b' := Progress(setup, b, date);
    forall r: nat | r <= round ensures SameRound(b, b', r) {
    }
    LaterOkBothWays(b, b', round);
  }

  lemma {:induction false} LaterOkBothWays(b: Bracket, b': Bracket, round: nat)
    requires SameRound(b, b', round) && (round >= 1 ==> SameRound(b, b', round - 1))
    ensures LaterOk(b, round) <==> LaterOk(b', round)
  {
    if LaterOk(b, round) {
      LaterOkSame(b, b', round);
    }
    if LaterOk(b', round) {
      LaterOkSame(b', b, round);
    }
  }

  // ----- Reachable brackets are knockouts -----

  /** A completed later round, played by those who came through the completed round before it. */
  lemma {:induction false} CompletedLaterRound(b: Bracket, last: nat) returns (round: Round)
    requires LaterOk(b, last) && last >= 2 && RowsOk(RowsAt(b, last)) && Complete(RowsAt(b, last))
    ensures Complete(RowsAt(b, last - 1))
    ensures Played(round) && round.advancers == Advancers(RowsAt(b, last), ByesAt(b, last))
    ensures round.pairs == SequentialPairs(Advancers(RowsAt(b, last - 1), ByesAt(b, last - 1)))
    ensures |Advancers(RowsAt(b, last - 1), ByesAt(b, last - 1))| >= 2
  {
    var pairs := SequentialPairs(Advancers(RowsAt(b, last - 1), ByesAt(b, last - 1)));
    CompletedRoundIsPlayed(RowsAt(b, last), ByesAt(b, last), pairs);
    round := Round(pairs, Advancers(RowsAt(b, last), ByesAt(b, last)));
  }

  lemma {:induction false} CompletedFirstRound(seeded: seq<Pair>, b: Bracket) returns (round: Round)
    requires FirstOk(seeded, b) && RowsOk(RowsAt(b, 1)) && Complete(RowsAt(b, 1))
    ensures Played(round) && round.pairs != [] && NoRepeats(round.pairs)
    ensures FirstRoundFrom(seeded, b, round.pairs)
    ensures round.advancers == Advancers(RowsAt(b, 1), ByesAt(b, 1))
  {
    var pairs :| FirstRoundFrom(seeded, b, pairs);
    CompletedRoundIsPlayed(RowsAt(b, 1), ByesAt(b, 1), pairs);
    round := Round(pairs, Advancers(RowsAt(b, 1), ByesAt(b, 1)));
  }

  lemma {:induction false} AppendRound(before: seq<Round>, ahead: seq<Entry>, round: Round) returns (rounds: seq<Round>)
    requires KnockoutRun(before) && before[|before| - 1].advancers == ahead && |ahead| >= 2
    requires Played(round) && round.pairs == SequentialPairs(ahead)
    ensures KnockoutRun(rounds) && |rounds| == |before| + 1
    ensures rounds[0] == before[0] && rounds[|before|].advancers == round.advancers
  {
    rounds := before + [round];
  }

  /** The rounds from the first up to this one, as a played knockout. */
  ghost predicate PlaysRounds(b: Bracket, first: Round, last: nat, rounds: seq<Round>) {
    && Complete(RowsAt(b, last))
    && last >= 1 && |rounds| == last && KnockoutRun(rounds) && rounds[0] == first
    && rounds[last - 1].advancers == Advancers(RowsAt(b, last), ByesAt(b, last))
  }

  lemma {:induction false} AllBeforeComplete(b: Bracket, last: nat)
    requires AllLater(b) && RowsAllOk(b) && Complete(RowsAt(b, last))
    ensures last >= 1 && forall r: nat | 1 <= r <= last :: Complete(RowsAt(b, r)) && RowsOk(RowsAt(b, r))
  {
    forall r: nat | 1 <= r <= last ensures Complete(RowsAt(b, r)) && RowsOk(RowsAt(b, r)) {
      CompleteAt(b, last, r);
    }
  }

  lemma {:induction false} ExtendRun(
      b: Bracket, first: Round, last: nat, before: seq<Round>)
    returns (rounds: seq<Round>)
    requires LaterOk(b, last) && last >= 2 && RowsOk(RowsAt(b, last)) && Complete(RowsAt(b, last))
    requires PlaysRounds(b, first, last - 1, before)
    ensures PlaysRounds(b, first, last, rounds)
  {
    var round := CompletedLaterRound(b, last);
    rounds := AppendRound(before, Advancers(RowsAt(b, last - 1), ByesAt(b, last - 1)), round);
  }

  lemma {:induction false} CompletedRoundsAsRun(b: Bracket, first: Round, last: nat) returns (rounds: seq<Round>)
    requires (forall r: nat :: LaterOk(b, r)) && last >= 1
    requires forall r: nat | 1 <= r <= last :: Complete(RowsAt(b, r)) && RowsOk(RowsAt(b, r))
    requires PlaysRounds(b, first, 1, [first])
    ensures PlaysRounds(b, first, last, rounds)
  {
    rounds := [first];
    var k := 1;
    while k < last
      invariant 1 <= k <= last && PlaysRounds(b, first, k, rounds)
    {
      rounds := ExtendRun(b, first, k + 1, rounds);
      k := k + 1;
    }
  }

  lemma {:induction false} CompletedBracketAsRun(seeded: seq<Pair>, b: Bracket, last: nat) returns (rounds: seq<Round>)
    requires (forall r: nat :: LaterOk(b, r)) && RowsAllOk(b) && FirstOk(seeded, b) && Complete(RowsAt(b, last))
    ensures |rounds| == last && KnockoutRun(rounds)
    ensures RoundIs(RowsAt(b, 1), ByesAt(b, 1), rounds[0].pairs) && NoRepeats(rounds[0].pairs)
    ensures rounds[last - 1].advancers == Advancers(RowsAt(b, last), ByesAt(b, last))
  {
    AllBeforeComplete(b, last);
    var first := CompletedFirstRound(seeded, b);
    DefinedRoundIs(RowsAt(b, 1), ByesAt(b, 1), first.pairs);
    FirstRoundPlays(b, first);
    rounds := CompletedRoundsAsRun(b, first, last);
  }

  lemma {:induction false} FirstRoundPlays(b: Bracket, first: Round)
    requires Complete(RowsAt(b, 1)) && Played(first) && first.pairs != [] && NoRepeats(first.pairs)
    requires first.advancers == Advancers(RowsAt(b, 1), ByesAt(b, 1))
    ensures PlaysRounds(b, first, 1, [first])
  {
  }

  /**
   * After every safe run, a completed round is the last exactly when it is round
   * 1 + ceil(log2 p) of a bracket with p first-round slots. Then one match fewer has
   * been played than there were entrants, the champion never lost and everybody else
   * lost exactly once.
   */
  lemma {:induction false} ReachableBracketIsKnockout(
      setup: Setup, b: Bracket, steps: seq<Step>, last: nat)
    returns (rounds: seq<Round>)
    requires Initial(b) && SafeRun(setup, b, steps) && Complete(RowsAt(Run(setup, b, steps), last))
    ensures |rounds| == last && KnockoutRun(rounds)
    ensures RoundIs(RowsAt(Run(setup, b, steps), 1), ByesAt(Run(setup, b, steps), 1), rounds[0].pairs)
    ensures rounds[last - 1].advancers == Advancers(RowsAt(Run(setup, b, steps), last), ByesAt(Run(setup, b, steps), last))
    ensures
      var p := |rounds[0].pairs|;
      && last <= 1 + CeilLog2(p)
      && (HasChampion(rounds) <==> last == 1 + CeilLog2(p))
      && (HasChampion(rounds) ==>
            && Matches(rounds) == MatchesIn(rounds[0].pairs) + p - 1
            && forall e :: Losses(rounds, e) == if Plays(rounds[0].pairs, e) && e != Champion(rounds) then 1 else 0)
  {
    RunKeepsConsistent(setup, b, steps);
    rounds := CompletedBracketAsRun(Seeded(setup, Run(setup, b, steps)), Run(setup, b, steps), last);
    RunLength(rounds);
    if HasChampion(rounds) {
      RunMatches(rounds);
      forall e: Entry ensures Losses(rounds, e) == if Plays(rounds[0].pairs, e) && e != Champion(rounds) then 1 else 0 {
        RunLosses(rounds, e);
      }
    }
  }
}
