/** When a round gets all its participants, and which matches keep it from ever being completed. */
module BracketProgress {
  import opened Entries
  import opened NatSets
  import opened Statuses
  import opened Seeding
  import opened KnockoutPhase
  import opened BracketInvariant
  import opened BracketRecompute
  import opened BracketResults
  import opened BracketRuns

  // ----- The exact condition for a round to be filled -----

  /** Every match already in the round has its participants, or is scheduled where the pairing has a match. */
  ghost predicate CanFill(rows: Rows, pairs: seq<Pair>) {
    forall s | s in rows :: Filled(rows[s]) || (rows[s].status.Scheduled? && RealSlot(pairs, s))
  }

  lemma {:induction false} FillDefinesExactly(rows: Rows, pairs: seq<Pair>, date: Date)
    requires InOrder(pairs) && HasMatch(pairs)
    ensures Defined(FillRound(rows, pairs, date)) <==> CanFill(rows, pairs)
  {
    var after := FillRound(rows, pairs, date);
    var k :| 0 <= k < |pairs| && pairs[k].entryB.Some?;
    FillRoundAt(rows, pairs, date, k);
    if CanFill(rows, pairs) {
      forall s | s in after ensures Filled(after[s]) {
        FilledAfter(rows, pairs, date, s);
      }
    }
    if Defined(after) {
      forall s | s in rows ensures Filled(rows[s]) || (rows[s].status.Scheduled? && RealSlot(pairs, s)) {
        FillableBefore(rows, pairs, date, s);
      }
    }
  }

  lemma {:induction false} FilledAfter(rows: Rows, pairs: seq<Pair>, date: Date, s: nat)
    requires InOrder(pairs) && CanFill(rows, pairs) && s in FillRound(rows, pairs, date)
    ensures Filled(FillRound(rows, pairs, date)[s])
  {
    if RealSlot(pairs, s) {
      var i :| 0 <= i < |pairs| && pairs[i].order == s && pairs[i].entryB.Some?;
      FillRoundAt(rows, pairs, date, i);
    } else {
      FillRoundElsewhere(rows, pairs, date, s);
    }
  }

  lemma {:induction false} FillableBefore(rows: Rows, pairs: seq<Pair>, date: Date, s: nat)
    requires InOrder(pairs) && s in rows && Defined(FillRound(rows, pairs, date))
    ensures Filled(rows[s]) || (rows[s].status.Scheduled? && RealSlot(pairs, s))
  {
    FillRoundPreserves(rows, pairs, date, s);
    if !RealSlot(pairs, s) {
      FillRoundElsewhere(rows, pairs, date, s);
    }
  }

  /**
   * When a round is complete and leaves more than one, the recomputation gives every match of the next round its
   * participants if and only if each match already there has them, or is scheduled in a slot the pairing plays.
   */
  lemma {:induction false} NextRoundDefinedExactly(setup: Setup, b: Bracket, last: nat, date: Date)
    requires DefinedRounds(b) != {} && last == MaxOf(DefinedRounds(b)) && Advances(b, last)
    ensures
      Defined(RowsAt(Progress(setup, b, date), last + 1)) <==>
      CanFill(RowsAt(b, last + 1), SequentialPairs(Advancers(RowsAt(b, last), ByesAt(b, last))))
  {
    var pairs := SequentialPairs(Advancers(RowsAt(b, last), ByesAt(b, last)));
    AdvanceShape(setup, b, last, date);
    TwoMakeAMatch(Advancers(RowsAt(b, last), ByesAt(b, last)));
    AddedRoundDefinedExactly(b, Progress(setup, b, date), last + 1, pairs, date);
  }

  lemma {:induction false} AddedRoundDefinedExactly(b: Bracket, b': Bracket, round: nat, pairs: seq<Pair>, date: Date)
    requires AddsRound(b, b', round, pairs, date) && InOrder(pairs) && HasMatch(pairs)
    ensures Defined(RowsAt(b', round)) <==> CanFill(RowsAt(b, round), pairs)
  {
    FillDefinesExactly(RowsAt(b, round), pairs, date);
  }

  lemma {:induction false} TwoMakeAMatch(entries: seq<Entry>)
    requires |entries| >= 2
    ensures InOrder(SequentialPairs(entries)) && HasMatch(SequentialPairs(entries))
  {
    SequentialPairsProper(entries);
    assert SequentialPairs(entries)[0].entryB.Some?;
  }

  lemma {:induction false} FirstPairsInOrder(setup: Setup, b: Bracket)
    requires !b.source.Pending?
    ensures InOrder(FirstPairs(setup, b))
  {
    if PublishedPairs(b.source, RowsAt(b, 1)).Some? {
      PublishedForEverySlot(b.source, RowsAt(b, 1));
    } else {
      SeededInOrder(setup, b);
    }
  }

  /** The same of the first round, once there is somebody to play it. */
  lemma {:induction false} FirstRoundDefinedExactly(setup: Setup, b: Bracket, date: Date)
    requires DefinedRounds(b) == {} && !b.source.Pending? && HasMatch(FirstPairs(setup, b))
    ensures Defined(RowsAt(Progress(setup, b, date), 1)) <==> CanFill(RowsAt(b, 1), FirstPairs(setup, b))
  {
    FirstPairsInOrder(setup, b);
    FillDefinesExactly(RowsAt(b, 1), FirstPairs(setup, b), date);
  }

  // ----- Matches that hold their round up for good -----

  /** Cancelled, or closed without participants. */
  predicate Lost(m: KoMatch) {
    m.status.Cancelled? || (Official(m.status) && !Filled(m))
  }

  ghost predicate LostAt(b: Bracket, round: nat, slot: nat) {
    slot in RowsAt(b, round) && Lost(RowsAt(b, round)[slot])
  }

  /** It stays lost, and without participants if it had none. */
  ghost predicate StaysLost(b: Bracket, b': Bracket, round: nat, slot: nat)
    requires LostAt(b, round, slot)
  {
    LostAt(b', round, slot) && (Filled(RowsAt(b', round)[slot]) <==> Filled(RowsAt(b, round)[slot]))
  }

  lemma {:induction false} StoredKeepsLost(b: Bracket, step: Step, round: nat, slot: nat)
    requires LostAt(b, round, slot) && Enabled(b, step)
    ensures StaysLost(b, Stored(b, step), round, slot)
  {
    assert round in b.rounds && !AllScheduled(b.rounds[round]);
  }

  lemma {:induction false} TakeKeepsLost(setup: Setup, b: Bracket, step: Step, round: nat, slot: nat)
    requires LostAt(b, round, slot)
    ensures StaysLost(b, Take(setup, b, step), round, slot)
  {
    if Enabled(b, step) {
      StoredKeepsLost(b, step, round, slot);
      if !Silent(step) {
        ProgressPreservesMatches(setup, Stored(b, step), step.date, round, slot);
      }
    }
  }

  lemma {:induction false} RunKeepsLost(setup: Setup, b: Bracket, steps: seq<Step>, round: nat, slot: nat)
    requires LostAt(b, round, slot)
    ensures StaysLost(b, Run(setup, b, steps), round, slot)
  {
    if steps != [] {
      RunKeepsLost(setup, b, steps[..|steps| - 1], round, slot);
      TakeKeepsLost(setup, Run(setup, b, steps[..|steps| - 1]), steps[|steps| - 1], round, slot);
    }
  }

  /**
   * Whatever happens from there on, corrections and changed groups included: a round with a match that was cancelled,
   * or closed before its participants were known, is never completed, and in the latter case never all filled.
   */
  lemma {:induction false} LostMatchBlocksForGood(setup: Setup, b: Bracket, steps: seq<Step>, round: nat, slot: nat)
    requires LostAt(b, round, slot)
    ensures
      var rows := RowsAt(Run(setup, b, steps), round);
      !Complete(rows) && (!Filled(RowsAt(b, round)[slot]) ==> !Defined(rows))
  {
    RunKeepsLost(setup, b, steps, round, slot);
  }

  ghost predicate ScheduledAt(b: Bracket, round: nat, slot: nat) {
    slot in RowsAt(b, round) && RowsAt(b, round)[slot].status.Scheduled?
  }

  ghost predicate CanReopen(setup: Setup, b: Bracket, round: nat, slot: nat) {
    exists steps :: ScheduledAt(Run(setup, b, steps), round, slot)
  }

  /** A match that waits for its participants can still be given them if and only if it is not lost. */
  lemma {:induction false} ReopensExactly(setup: Setup, b: Bracket, round: nat, slot: nat)
    requires slot in RowsAt(b, round) && !Filled(RowsAt(b, round)[slot])
    ensures CanReopen(setup, b, round, slot) <==> !Lost(RowsAt(b, round)[slot])
  {
    if Lost(RowsAt(b, round)[slot]) {
      forall steps ensures !ScheduledAt(Run(setup, b, steps), round, slot) {
        RunKeepsLost(setup, b, steps, round, slot);
      }
    } else {
      var steps := Reopening(setup, b, round, slot);
      assert ScheduledAt(Run(setup, b, steps), round, slot);
    }
  }

  lemma {:induction false} Reopening(setup: Setup, b: Bracket, round: nat, slot: nat) returns (steps: seq<Step>)
    requires slot in RowsAt(b, round) && Undecided(RowsAt(b, round)[slot].status)
    ensures ScheduledAt(Run(setup, b, steps), round, slot)
  {
    var ref := Slot(round, slot);
    match RowsAt(b, round)[slot].status
    case Scheduled =>
      steps := [];
    case Postponed =>
      steps := [SetStatus(ref, Scheduled)];
      StatusChanged(setup, b, [], ref, Scheduled);
    case Live =>
      steps := [SetStatus(ref, Postponed), SetStatus(ref, Scheduled)];
      StatusChanged(setup, b, [], ref, Postponed);
      StatusChanged(setup, b, [SetStatus(ref, Postponed)], ref, Scheduled);
      assert [SetStatus(ref, Postponed)] + [SetStatus(ref, Scheduled)] == steps;
  }

  lemma {:induction false} StatusChanged(setup: Setup, b: Bracket, steps: seq<Step>, ref: Ref, to: Status)
    requires ref.Slot? && ref.slot in RowsAt(Run(setup, b, steps), ref.round) && !to.Walkover?
    requires CanTransition(RowsAt(Run(setup, b, steps), ref.round)[ref.slot].status, to)
    ensures
      var rows := RowsAt(Run(setup, b, steps + [SetStatus(ref, to)]), ref.round);
      ref.slot in rows && rows[ref.slot].status == to
    ensures steps == [] ==> steps + [SetStatus(ref, to)] == [SetStatus(ref, to)]
  {
    assert (steps + [SetStatus(ref, to)])[..|steps|] == steps;
  }

  // ----- A match closed without a winner -----

  /** Finished through a change of status, which stores no winner. */
  ghost predicate UnwonAt(b: Bracket, round: nat, slot: nat) {
    slot in RowsAt(b, round) && RowsAt(b, round)[slot].status.Finished? && RowsAt(b, round)[slot].winner.None?
  }

  /** A step other than a correction of this match. */
  predicate Elsewhere(step: Step, round: nat, slot: nat) {
    step.Correct? ==> step.ref != Slot(round, slot)
  }

  lemma {:induction false} TakeKeepsUnwon(setup: Setup, b: Bracket, step: Step, round: nat, slot: nat)
    requires UnwonAt(b, round, slot) && Elsewhere(step, round, slot)
    ensures UnwonAt(Take(setup, b, step), round, slot)
  {
    if Enabled(b, step) {
      assert round in b.rounds && !AllScheduled(b.rounds[round]);
      assert UnwonAt(Stored(b, step), round, slot);
      if !Silent(step) {
        ProgressPreservesMatches(setup, Stored(b, step), step.date, round, slot);
      }
    }
  }

  /** A match that was finished by a change of status holds its round up until its own result is corrected. */
  lemma {:induction false} UnwonMatchWaitsForCorrection(
      setup: Setup, b: Bracket, steps: seq<Step>, round: nat, slot: nat)
    requires UnwonAt(b, round, slot) && forall i | 0 <= i < |steps| :: Elsewhere(steps[i], round, slot)
    ensures UnwonAt(Run(setup, b, steps), round, slot) && !Complete(RowsAt(Run(setup, b, steps), round))
  {
    if steps != [] {
      var n := |steps| - 1;
      UnwonMatchWaitsForCorrection(setup, b, steps[..n], round, slot);
      TakeKeepsUnwon(setup, Run(setup, b, steps[..n]), steps[n], round, slot);
    }
  }

  // ----- What is never deleted -----

  /** No step deletes a match that has left SCHEDULED, or changes who plays it. */
  lemma {:induction false} StartedMatchIsKept(setup: Setup, b: Bracket, step: Step, round: nat, slot: nat)
    requires slot in RowsAt(b, round) && !RowsAt(b, round)[slot].status.Scheduled?
    ensures
      var before, after := RowsAt(b, round), RowsAt(Take(setup, b, step), round);
      && slot in after
      && (!step.SetStatus? ==> after[slot].entryA == before[slot].entryA && after[slot].entryB == before[slot].entryB)
  {
    if Enabled(b, step) {
      assert round in b.rounds && !AllScheduled(b.rounds[round]);
      StoredKeepsStarted(b, step, round, slot);
      if !Silent(step) {
        ProgressPreservesMatches(setup, Stored(b, step), step.date, round, slot);
      }
    }
  }

  lemma {:induction false} StoredKeepsStarted(b: Bracket, step: Step, round: nat, slot: nat)
    requires slot in RowsAt(b, round) && !RowsAt(b, round)[slot].status.Scheduled? && Enabled(b, step)
    requires round in b.rounds && !AllScheduled(b.rounds[round])
    ensures
      var before, after := RowsAt(b, round)[slot], RowsAt(Stored(b, step), round);
      && slot in after && SameSides(before, after[slot]) && (!step.SetStatus? ==> !after[slot].status.Scheduled?)
  {
  }

  /** Nor a third-place match that has. */
  lemma {:induction false} StartedThirdIsKept(setup: Setup, b: Bracket, step: Step)
    requires b.third.Some? && !b.third.value.status.Scheduled?
    ensures
      var after := Take(setup, b, step).third;
      && after.Some?
      && (!step.SetStatus? ==> after.value.entryA == b.third.value.entryA && after.value.entryB == b.third.value.entryB)
  {
    if Enabled(b, step) {
      var stored := Stored(b, step);
      assert stored.third.Some? && SameSides(b.third.value, stored.third.value);
      if !Silent(step) {
        ProgressPreservesThird(setup, stored, step.date);
      }
    }
  }
}
