/** A correction repairs what a walkover declared again has broken. */
module BracketRepair {
  import opened Wrappers
  import opened Entries
  import opened NatSets
  import opened Statuses
  import opened Seeding
  import opened KnockoutPhase
  import opened BracketInvariant
  import opened BracketRecompute
  import opened BracketResults
  import opened BracketRuns

  /** The same rounds up to one, and nothing after it. */
  ghost predicate SameRounds(b: Bracket, b': Bracket, round: nat) {
    && b'.source == b.source && b'.rounds == b.rounds && b.third.None? && b'.third.None?
    && (forall r | r in b.rounds :: r <= round)
    && forall r: nat | r <= round :: ByesAt(b', r) == ByesAt(b, r)
  }

  lemma {:induction false} LaterByesDoNotMatter(seeded: seq<Pair>, b: Bracket, b': Bracket, round: nat)
    requires Consistent(seeded, b) && SameRounds(b, b', round) && round >= 1
    ensures Consistent(seeded, b')
  {
    FirstOkSame(seeded, b, b');
    forall r: nat ensures LaterOk(b', r) {
      assert LaterOk(b, r);
      if r <= round {
        LaterOkSame(b, b', r);
      } else {
        assert RowsAt(b', r) == map[];
      }
    }
  }

  /** Up to the round, only this match differs; a later round follows in both. */
  ghost predicate DiffersAt(b: Bracket, b': Bracket, round: nat, slot: nat, m: KoMatch) {
    && b'.source == b.source && HasRoundAfter(b, round) && HasRoundAfter(b', round)
    && SameKept(b, b', round, slot, m)
    && forall r: nat | r <= round :: ByesAt(b', r) == ByesAt(b, r)
  }

  ghost predicate SameKept(b: Bracket, b': Bracket, round: nat, slot: nat, m: KoMatch) {
    forall r: nat | r <= round ::
      (r in b'.rounds <==> r in b.rounds) &&
      (r in b.rounds ==> b'.rounds[r] == if r == round then b.rounds[r][slot := m] else b.rounds[r])
  }

  lemma {:induction false} DeletionForgets(b: Bracket, b': Bracket, round: nat, slot: nat, m: KoMatch, m': KoMatch)
    requires slot in RowsAt(b, round) && DiffersAt(b, b', round, slot, m)
    ensures
      var ref := Slot(round, slot);
      && Lookup(b', ref) == Some(m)
      && SameRounds(Store(DeleteDownstream(b, ref), ref, m'), Store(DeleteDownstream(b', ref), ref, m'), round)
  {
    var ref := Slot(round, slot);
    var kept, kept' := Store(DeleteDownstream(b, ref), ref, m'), Store(DeleteDownstream(b', ref), ref, m');
    assert b.rounds[round][slot := m][slot := m'] == b.rounds[round][slot := m'];
    forall r ensures r in kept.rounds <==> r in kept'.rounds
      ensures r in kept.rounds ==> kept.rounds[r] == kept'.rounds[r]
    {
    }
    assert kept'.rounds == kept.rounds;
    forall r: nat | r <= round ensures ByesAt(kept', r) == ByesAt(kept, r) {
      assert ByesAt(b', r) == ByesAt(b, r);
    }
  }

  /** After the walkover was declared again and recomputed, what a correction keeps is what it would have kept before. */
  lemma {:induction false} DeletionForgetsRedeclared(
      setup: Setup, b: Bracket, round: nat, slot: nat, m: KoMatch, m': KoMatch, date: Date)
    requires slot in RowsAt(b, round) && SameSides(RowsAt(b, round)[slot], m)
    requires Defined(RowsAt(b, round)) && RowsAt(b, round + 1) != map[]
    ensures
      var ref := Slot(round, slot);
      var redeclared := Progress(setup, Store(b, ref, m), date);
      && Lookup(redeclared, ref) == Some(m)
      && SameRounds(Store(DeleteDownstream(b, ref), ref, m'), Store(DeleteDownstream(redeclared, ref), ref, m'), round)
  {
    StartedIgnoresResults(RowsAt(b, round), slot, m);
    RedeclaredDiffersAt(setup, b, round, slot, m, date);
    DeletionForgets(b, Progress(setup, Store(b, Slot(round, slot), m), date), round, slot, m, m');
  }

  lemma {:induction false} RedeclaredDiffersAt(
      setup: Setup, b: Bracket, round: nat, slot: nat, m: KoMatch, date: Date)
    requires slot in RowsAt(b, round) && Defined(RowsAt(b, round)[slot := m]) && RowsAt(b, round + 1) != map[]
    ensures DiffersAt(b, Progress(setup, Store(b, Slot(round, slot), m), date), round, slot, m)
  {
    var stored := Store(b, Slot(round, slot), m);
    RoundStillFollows(setup, stored, round, date);
    SameKeptRounds(setup, b, round, slot, m, date);
    DefinedRoundsStay(setup, stored, round, date);
    assert HasRoundAfter(b, round) by { assert round + 1 in b.rounds; }
    forall r: nat | r <= round ensures ByesAt(Progress(setup, stored, date), r) == ByesAt(b, r) {
      assert SameRound(stored, Progress(setup, stored, date), r);
    }
  }

  lemma {:induction false} RoundStillFollows(setup: Setup, b: Bracket, round: nat, date: Date)
    requires RowsAt(b, round + 1) != map[]
    ensures HasRoundAfter(Progress(setup, b, date), round)
  {
    var s :| s in RowsAt(b, round + 1);
    ProgressPreservesMatches(setup, b, date, round + 1, s);
    assert round + 1 in Progress(setup, b, date).rounds;
  }

  lemma {:induction false} SameKeptRounds(
      setup: Setup, b: Bracket, round: nat, slot: nat, m: KoMatch, date: Date)
    requires slot in RowsAt(b, round) && Defined(RowsAt(b, round)[slot := m])
    ensures SameKept(b, Progress(setup, Store(b, Slot(round, slot), m), date), round, slot, m)
  {
    var stored := Store(b, Slot(round, slot), m);
    var redeclared := Progress(setup, stored, date);
    assert round in DefinedRounds(stored);
    var last := MaxOf(DefinedRounds(stored));
    AdvanceShape(setup, stored, last, date);
    DefinedRoundsStay(setup, stored, round, date);
    forall r: nat | r <= round
      ensures r in redeclared.rounds <==> r in b.rounds
      ensures r in b.rounds ==> redeclared.rounds[r] == if r == round then b.rounds[r][slot := m] else b.rounds[r]
    {
      assert SameRound(stored, redeclared, r);
      assert r in b.rounds ==> r in redeclared.rounds;
    }
  }

  /**
   * A walkover is declared again although the next round was built on it, and the bracket recomputed. If a correction
   * of that match is then accepted, the bracket is consistent again.
   */
  lemma {:induction false} CorrectionRestoresConsistency(
      setup: Setup, b: Bracket, round: nat, slot: nat, other: Entry, winner: Option<Entry>, date: Date, date': Date)
    requires Consistent(Seeded(setup, b), b) && Enabled(b, Redeclare(Slot(round, slot), other, date))
    requires BuiltUpon(b, Slot(round, slot))
    requires Enabled(Take(setup, b, Redeclare(Slot(round, slot), other, date)), Correct(Slot(round, slot), winner, date'))
    ensures
      var redeclared := Take(setup, b, Redeclare(Slot(round, slot), other, date));
      var corrected := Take(setup, redeclared, Correct(Slot(round, slot), winner, date'));
      Consistent(Seeded(setup, corrected), corrected)
  {
    var ref := Slot(round, slot);
    var m := RowsAt(b, round)[slot].(winner := Some(other));
    var m' := m.(status := Finished, winner := winner);
    MatchFound(b, ref);
    BuiltRoundIsComplete(Seeded(setup, b), b, round, slot);
    DeletionForgetsRedeclared(setup, b, round, slot, m, m', date);
    var redeclared := Progress(setup, Store(b, ref, m), date);
    assert redeclared == Take(setup, b, Redeclare(ref, other, date));
    var stored := Store(DeleteDownstream(redeclared, ref), ref, m');
    StoredIsRestored(Seeded(setup, b), b, redeclared, round, slot, m');
    DefinedIsNotContested(stored, round, slot, b, m');
    RecomputedIsConsistent(setup, stored, date');
    assert Stored(redeclared, Correct(ref, winner, date')) == stored;
  }

  lemma {:induction false} StoredIsRestored(
      seeded: seq<Pair>, b: Bracket, redeclared: Bracket, round: nat, slot: nat, m: KoMatch)
    requires Consistent(seeded, b) && slot in RowsAt(b, round) && round >= 1
    requires MatchOk(m) && SameSides(RowsAt(b, round)[slot], m)
    requires
      var ref := Slot(round, slot);
      SameRounds(Store(DeleteDownstream(b, ref), ref, m), Store(DeleteDownstream(redeclared, ref), ref, m), round)
    ensures
      var stored := Store(DeleteDownstream(redeclared, Slot(round, slot)), Slot(round, slot), m);
      && Consistent(seeded, stored) && stored.source == b.source
      && RowsAt(stored, round) == RowsAt(b, round)[slot := m]
  {
    var ref := Slot(round, slot);
    CorrectionKeepsConsistent(seeded, b, ref, m);
    LaterByesDoNotMatter(
      seeded, Store(DeleteDownstream(b, ref), ref, m), Store(DeleteDownstream(redeclared, ref), ref, m), round);
  }

  lemma {:induction false} RecomputedIsConsistent(setup: Setup, b: Bracket, date: Date)
    requires Consistent(Seeded(setup, b), b) && !Contested(b)
    ensures var b' := Progress(setup, b, date); Consistent(Seeded(setup, b'), b')
  {
    ProgressKeepsConsistent(setup, b, date);
  }

  lemma {:induction false} BuiltRoundIsComplete(seeded: seq<Pair>, b: Bracket, round: nat, slot: nat)
    requires Consistent(seeded, b) && BuiltUpon(b, Slot(round, slot)) && slot in RowsAt(b, round)
    ensures round >= 1 && Defined(RowsAt(b, round)) && RowsAt(b, round + 1) != map[]
  {
    assert round in b.rounds;
    assert LaterOk(b, round + 1);
  }

  lemma {:induction false} DefinedIsNotContested(stored: Bracket, round: nat, slot: nat, b: Bracket, m: KoMatch)
    requires slot in RowsAt(b, round) && Defined(RowsAt(b, round)) && SameSides(RowsAt(b, round)[slot], m)
    requires RowsAt(stored, round) == RowsAt(b, round)[slot := m]
    ensures !Contested(stored)
  {
    StartedIgnoresResults(RowsAt(b, round), slot, m);
    assert round in DefinedRounds(stored);
  }
}
