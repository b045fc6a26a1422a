/** Recomputing the knockout: what it never touches, and that doing it twice is doing it once. */
module BracketRecompute {
  import opened Wrappers
  import opened NatSets
  import opened Seeding
  import opened KnockoutPhase
  import opened BracketInvariant

  // ----- What a recomputation never touches -----

  /** Result, status, date and venue are kept; participants too once the match has left Scheduled. */
  predicate Preserves(before: KoMatch, after: KoMatch) {
    && after.status == before.status
    && after.winner == before.winner
    && after.scheduledAt == before.scheduledAt
    && after.venue == before.venue
    && (!before.status.Scheduled? ==> after == before)
  }

  lemma {:induction false} FillRoundPreserves(rows: Rows, pairs: seq<Pair>, date: Date, slot: nat)
    requires slot in rows
    ensures slot in FillRound(rows, pairs, date) && Preserves(rows[slot], FillRound(rows, pairs, date)[slot])
  {
    if pairs != [] {
      FillRoundPreserves(rows, pairs[..|pairs| - 1], date, slot);
    }
  }

  /** No recomputation removes a match, changes one that has left Scheduled, or moves one in time or place. */
  lemma {:induction false} ProgressPreservesMatches(setup: Setup, b: Bracket, date: Date, round: nat, slot: nat)
    requires slot in RowsAt(b, round)
    ensures
      var after := RowsAt(Progress(setup, b, date), round);
      slot in after && Preserves(RowsAt(b, round)[slot], after[slot])
  {
    if DefinedRounds(b) != {} {
      var last := MaxOf(DefinedRounds(b));
      if Advances(b, last) && round == last + 1 {
        FillRoundPreserves(
          RowsAt(b, round), SequentialPairs(Advancers(RowsAt(b, last), ByesAt(b, last))), date, slot);
      }
    } else if !b.source.Pending? && round == 1 {
      FillRoundPreserves(RowsAt(b, round), FirstPairs(setup, b), date, slot);
    }
  }

  lemma {:induction false} ThirdPlacePreserves(setup: Setup, b: Bracket, round: nat, date: Date)
    requires b.third.Some? && AllWon(RowsAt(b, round))
    ensures
      var after := ThirdPlace(setup, b, round, date);
      && after.Some? && Preserves(b.third.value, after.value)
      && (Filled(b.third.value) ==> after == b.third)
  {
  }

  lemma {:induction false} ProgressPreservesThird(setup: Setup, b: Bracket, date: Date)
    requires b.third.Some?
    ensures
      var after := Progress(setup, b, date).third;
      && after.Some? && Preserves(b.third.value, after.value)
      && (Filled(b.third.value) ==> after == b.third)
  {
    if DefinedRounds(b) != {} {
      var last := MaxOf(DefinedRounds(b));
      AdvanceShape(setup, b, last, date);
      if Advances(b, last) {
        ThirdPlacePreserves(setup, b, last, date);
      }
    }
  }

  // ----- Twice is once -----

  lemma {:induction false} RefillMatch(existing: Option<KoMatch>, pair: Pair, date: Date, date': Date)
    ensures FillMatch(Some(FillMatch(existing, pair, date)), pair, date') == FillMatch(existing, pair, date)
  {
  }

  lemma {:induction false} FillRoundTwice(rows: Rows, pairs: seq<Pair>, date: Date, date': Date)
    requires InOrder(pairs)
    ensures FillRound(FillRound(rows, pairs, date), pairs, date') == FillRound(rows, pairs, date)
  {
    var once := FillRound(rows, pairs, date);
    var twice := FillRound(once, pairs, date');
    forall s: nat ensures MatchAt(twice, s) == MatchAt(once, s) {
      if RealSlot(pairs, s) {
        var i :| 0 <= i < |pairs| && pairs[i].order == s && pairs[i].entryB.Some?;
        FillRoundAt(rows, pairs, date, i);
        FillRoundAt(once, pairs, date', i);
        RefillMatch(MatchAt(rows, s), pairs[i], date, date');
      } else {
        FillRoundElsewhere(once, pairs, date', s);
      }
    }
    SameMatchesSameRows(twice, once);
  }

  lemma {:induction false} SameMatchesSameRows(rows: Rows, rows': Rows)
    requires forall s: nat :: MatchAt(rows, s) == MatchAt(rows', s)
    ensures rows == rows'
  {
    forall s: nat ensures (s in rows <==> s in rows') && (s in rows ==> rows[s] == rows'[s]) {
      assert MatchAt(rows, s) == MatchAt(rows', s);
    }
  }

  /** A round that was missing or incomplete has a scheduled match once all of it is filled. */
  lemma {:induction false} FilledRoundIsNotOver(rows: Rows, pairs: seq<Pair>, date: Date)
    requires !Defined(rows) && InOrder(pairs) && HasMatch(pairs) && Defined(FillRound(rows, pairs, date))
    ensures !AllOfficial(FillRound(rows, pairs, date))
  {
    var after := FillRound(rows, pairs, date);
    if rows == map[] {
      var i: nat :| i < |pairs| && pairs[i].entryB.Some?;
      FillRoundAt(rows, pairs, date, i);
      assert after[pairs[i].order].status.Scheduled?;
    } else {
      var s :| s in rows && !Filled(rows[s]);
      FillRoundPreserves(rows, pairs, date, s);
      assert after[s].status.Scheduled?;
    }
  }

  /** Filling either leaves the round as it was or replaces the labels of some match. */
  lemma {:induction false} FillReplacesALabel(rows: Rows, pairs: seq<Pair>, date: Date)
    requires InOrder(pairs)
    ensures
      var after := FillRound(rows, pairs, date);
      after == rows || exists s :: s in after && after[s].labelA.None?
  {
    var after := FillRound(rows, pairs, date);
    if forall s: nat :: MatchAt(after, s) == MatchAt(rows, s) {
      SameMatchesSameRows(after, rows);
    } else {
      var s: nat :| MatchAt(after, s) != MatchAt(rows, s);
      if !RealSlot(pairs, s) {
        FillRoundElsewhere(rows, pairs, date, s);
      }
      var i :| 0 <= i < |pairs| && pairs[i].order == s && pairs[i].entryB.Some?;
      FillRoundAt(rows, pairs, date, i);
      assert s in after && after[s].labelA.None?;
    }
  }

  lemma {:induction false} MissingLabelHidesPublication(source: Source, rows: Rows, slot: nat)
    requires slot in rows && rows[slot].labelA.None?
    ensures PublishedPairs(source, rows).None?
  {
    assert slot in Sorted(rows.Keys);
    if PublishedPairs(source, rows).Some? {
      PublishedPairsAt(source.placed, rows, Sorted(rows.Keys));
    }
  }

  lemma {:induction false} SeededInOrder(setup: Setup, b: Bracket)
    ensures InOrder(Seeded(setup, b))
  {
    if !b.source.Pending? && |b.source.slots| >= 2 {
      BracketSizeIsLeastPowerOfTwo(|b.source.slots|);
    }
  }

  // ----- A second recomputation while no round is complete -----

  lemma {:induction false} OnlyFirstDefined(b: Bracket, b': Bracket)
    requires DefinedRounds(b) == {} && forall r: nat | r != 1 :: SameRound(b, b', r)
    ensures DefinedRounds(b') == if Defined(RowsAt(b', 1)) then {1} else {}
  {
    forall r | r in DefinedRounds(b') ensures r == 1 {
      assert r != 1 ==> SameRound(b, b', r) && r in DefinedRounds(b);
    }
    assert 1 in DefinedRounds(b') <==> Defined(RowsAt(b', 1));
  }

  lemma {:induction false} FirstUndefined(b: Bracket)
    requires DefinedRounds(b) == {}
    ensures !Defined(RowsAt(b, 1))
  {
    assert 1 in DefinedRounds(b) <==> Defined(RowsAt(b, 1));
  }

  /** Once the first round is all filled, it waits for its results. */
  lemma {:induction false} AfterFullRound(setup: Setup, b: Bracket, pairs: seq<Pair>, date: Date, date': Date)
    requires DefinedRounds(b) == {} && InOrder(pairs) && HasMatch(pairs) && Defined(FillRound(RowsAt(b, 1), pairs, date))
    ensures
      var b' := WithRound(b, 1, pairs, date);
      Progress(setup, b', date') == b' && StatusAfter(setup, b', Ongoing) == Ongoing
  {
    var b' := WithRound(b, 1, pairs, date);
    FirstUndefined(b);
    FilledRoundIsNotOver(RowsAt(b, 1), pairs, date);
    FirstRoundAdded(b, pairs, date);
    OnlyFirstDefined(b, b');
    assert MaxOf({1}) == 1;
  }

  lemma {:induction false} FirstRoundAdded(b: Bracket, pairs: seq<Pair>, date: Date)
    ensures AddsRound(b, WithRound(b, 1, pairs, date), 1, pairs, date)
  {
    WithRoundAdds(b, 1, pairs, date, b.third);
    assert WithRound(b, 1, pairs, date) == WithRound(b, 1, pairs, date).(third := b.third);
  }

  /** While a match stays open, a second recomputation fills the first round again, from the pairs it then finds. */
  lemma {:induction false} AfterOpenRound(setup: Setup, b: Bracket, pairs: seq<Pair>, date: Date, date': Date)
    requires DefinedRounds(b) == {} && !b.source.Pending? && !Defined(FillRound(RowsAt(b, 1), pairs, date))
    ensures
      var b' := WithRound(b, 1, pairs, date);
      && DefinedRounds(b') == {}
      && Progress(setup, b', date') ==
         (if HasMatch(FirstPairs(setup, b')) then WithRound(b', 1, FirstPairs(setup, b'), date') else b')
      && StatusAfter(setup, b', Ongoing) == Ongoing
  {
    FirstRoundAdded(b, pairs, date);
    OnlyFirstDefined(b, WithRound(b, 1, pairs, date));
  }

  lemma {:induction false} SameRoundSameBracket(b: Bracket, pairs: seq<Pair>, date: Date)
    requires 1 in b.rounds && 1 in b.byes
    ensures
      WithRound(b, 1, pairs, date) == b <==>
      FillRound(RowsAt(b, 1), pairs, date) == RowsAt(b, 1) && ByesOf(pairs) == ByesAt(b, 1)
  {
    var b' := WithRound(b, 1, pairs, date);
    assert b.rounds[1 := b.rounds[1]] == b.rounds && b.byes[1 := b.byes[1]] == b.byes;
    assert b'.rounds[1] == FillRound(RowsAt(b, 1), pairs, date) && b'.byes[1] == ByesOf(pairs);
  }

  /** Without a publication the seeding applies again, and finds its own pairs. */
  lemma {:induction false} SeededTwice(setup: Setup, b: Bracket, date: Date, date': Date)
    requires DefinedRounds(b) == {} && !b.source.Pending? && HasMatch(FirstPairs(setup, b))
    requires PublishedPairs(b.source, RowsAt(b, 1)).None?
    ensures
      var b' := WithRound(b, 1, FirstPairs(setup, b), date);
      Progress(setup, b', date') == b' && StatusAfter(setup, b', Ongoing) == Ongoing
  {
    var rows, pairs := RowsAt(b, 1), FirstPairs(setup, b);
    var b' := WithRound(b, 1, pairs, date);
    SeededInOrder(setup, b);
    if Defined(FillRound(rows, pairs, date)) {
      AfterFullRound(setup, b, pairs, date, date');
    } else {
      AfterOpenRound(setup, b, pairs, date, date');
      FillReplacesALabel(rows, pairs, date);
      if s :| s in RowsAt(b', 1) && RowsAt(b', 1)[s].labelA.None? {
        MissingLabelHidesPublication(b.source, RowsAt(b', 1), s);
      }
      FillRoundTwice(rows, pairs, date, date');
      SameRoundSameBracket(b', pairs, date');
    }
  }

  // ----- After a publication was used -----

  /** What the published pairs make of a round: the scheduled matches host their pairs, the others are as before. */
  ghost predicate FilledWith(rows: Rows, after: Rows, published: seq<Pair>) {
    && after.Keys == rows.Keys
    && (forall i | 0 <= i < |published| && published[i].order in rows && rows[published[i].order].status.Scheduled? ::
          HostsOnly(after, published[i]))
    && (forall s | s in rows && !rows[s].status.Scheduled? :: after[s] == rows[s])
    && (forall s | s in rows :: after[s].status == rows[s].status)
  }

  predicate HostsOnly(rows: Rows, pair: Pair) {
    Hosts(rows, pair) && rows[pair.order].labelA.None? && rows[pair.order].labelB.None?
  }

  lemma {:induction false} PublicationFills(source: Source, rows: Rows, date: Date)
    requires PublishedPairs(source, rows).Some?
    ensures
      var published := PublishedPairs(source, rows).value;
      FilledWith(rows, FillRound(rows, published, date), published) && ByesOf(published) == map[]
  {
    var published := PublishedPairs(source, rows).value;
    PublishedForEverySlot(source, rows);
    NoByes(published);
    FillKeepsSlots(rows, published, date);
    FillHosts(rows, published, date);
  }

  /** Pairs for slots that all have a match add none, and leave alone what is no longer scheduled. */
  lemma {:induction false} FillKeepsSlots(rows: Rows, published: seq<Pair>, date: Date)
    requires InOrder(published) && forall i | 0 <= i < |published| :: published[i].order in rows
    ensures
      var after := FillRound(rows, published, date);
      && after.Keys == rows.Keys
      && (forall s | s in rows && !rows[s].status.Scheduled? :: after[s] == rows[s])
      && (forall s | s in rows :: after[s].status == rows[s].status)
  {
    var after := FillRound(rows, published, date);
    forall s | s in after ensures s in rows {
      if !RealSlot(published, s) {
        FillRoundElsewhere(rows, published, date, s);
      }
    }
    forall s | s in rows
      ensures s in after && after[s].status == rows[s].status && (!rows[s].status.Scheduled? ==> after[s] == rows[s])
    {
      FillRoundPreserves(rows, published, date, s);
    }
  }

  lemma {:induction false} FillHosts(rows: Rows, published: seq<Pair>, date: Date)
    requires InOrder(published) && forall i | 0 <= i < |published| :: published[i].entryB.Some?
    ensures forall i | 0 <= i < |published| && published[i].order in rows && rows[published[i].order].status.Scheduled? ::
      HostsOnly(FillRound(rows, published, date), published[i])
  {
    forall i | 0 <= i < |published| && published[i].order in rows && rows[published[i].order].status.Scheduled?
      ensures HostsOnly(FillRound(rows, published, date), published[i])
    {
      FillRoundAt(rows, published, date, i);
    }
  }

  /** The seeding would find nothing to change in a round half filled from the publication. */
  predicate SeedingAgrees(setup: Setup, b: Bracket)
    requires PublishedPairs(b.source, RowsAt(b, 1)).Some?
  {
    var rows, published, seeded := RowsAt(b, 1), PublishedPairs(b.source, RowsAt(b, 1)).value, Seeded(setup, b);
    HasMatch(seeded) ==> AgreesWhereFilled(rows, published, seeded)
  }

  /** No byes, no further slots, and the published pair wherever a match was filled. */
  predicate AgreesWhereFilled(rows: Rows, published: seq<Pair>, seeded: seq<Pair>) {
    forall i | 0 <= i < |seeded| ::
      && seeded[i].entryB.Some? && seeded[i].order in rows
      && (rows[seeded[i].order].status.Scheduled? ==> seeded[i] in published)
  }

  lemma {:induction false} RefillKeeps(rows: Rows, after: Rows, published: seq<Pair>, seeded: seq<Pair>, date: Date)
    requires FilledWith(rows, after, published) && InOrder(published) && InOrder(seeded)
    requires AgreesWhereFilled(rows, published, seeded)
    ensures FillRound(after, seeded, date) == after && ByesOf(seeded) == map[]
  {
    NoByes(seeded);
    var again := FillRound(after, seeded, date);
    forall s: nat ensures MatchAt(again, s) == MatchAt(after, s) {
      if RealSlot(seeded, s) {
        var i :| 0 <= i < |seeded| && seeded[i].order == s && seeded[i].entryB.Some?;
        FillRoundAt(after, seeded, date, i);
        if rows[s].status.Scheduled? {
          var k :| 0 <= k < |published| && published[k] == seeded[i];
          assert HostsOnly(after, published[k]);
        }
      } else {
        FillRoundElsewhere(after, seeded, date, s);
      }
    }
    SameMatchesSameRows(again, after);
  }

  lemma {:induction false} RefillChanges(rows: Rows, after: Rows, published: seq<Pair>, seeded: seq<Pair>, date: Date)
    requires FilledWith(rows, after, published) && InOrder(published) && InOrder(seeded)
    requires forall s | s in rows :: RealSlot(published, s)
    requires FillRound(after, seeded, date) == after && ByesOf(seeded) == map[]
    ensures AgreesWhereFilled(rows, published, seeded)
  {
    NoByes(seeded);
    forall i | 0 <= i < |seeded|
      ensures seeded[i].entryB.Some? && seeded[i].order in rows
      ensures rows[seeded[i].order].status.Scheduled? ==> seeded[i] in published
    {
      FillRoundAt(after, seeded, date, i);
      assert seeded[i].order in after;
      if rows[seeded[i].order].status.Scheduled? {
        var k :| 0 <= k < |published| && published[k].order == seeded[i].order && published[k].entryB.Some?;
        assert HostsOnly(after, published[k]);
        assert published[k] == seeded[i];
      }
    }
  }

  /** The second recomputation after a part of a publication was used: the seeding decides. */
  lemma {:induction false} AfterPartialPublication(setup: Setup, b: Bracket, date: Date, date': Date)
    requires Contested(b)
    ensures
      var b' := Progress(setup, b, date);
      && (Progress(setup, b', date') == b' <==> SeedingAgrees(setup, b))
      && StatusAfter(setup, b', Ongoing) == Ongoing
  {
    var rows, published, seeded := RowsAt(b, 1), PublishedPairs(b.source, RowsAt(b, 1)).value, Seeded(setup, b);
    var b' := WithRound(b, 1, published, date);
    var after := FillRound(rows, published, date);
    PublishedForEverySlot(b.source, rows);
    assert HasMatch(published) by { assert published[0].entryB.Some?; }
    PublicationFills(b.source, rows, date);
    StillOpen(rows, after, published);
    AfterOpenRound(setup, b, published, date, date');
    LabelGone(rows, after, published, b.source);
    SeededInOrder(setup, b);
    assert FirstPairs(setup, b') == seeded;
    SameRoundSameBracket(b', seeded, date');
    SeedingDecides(rows, after, published, seeded, date');
  }

  lemma {:induction false} SeedingDecides(rows: Rows, after: Rows, published: seq<Pair>, seeded: seq<Pair>, date: Date)
    requires FilledWith(rows, after, published) && InOrder(published) && InOrder(seeded)
    requires forall s | s in rows :: RealSlot(published, s)
    ensures FillRound(after, seeded, date) == after && ByesOf(seeded) == map[] <==> AgreesWhereFilled(rows, published, seeded)
  {
    if AgreesWhereFilled(rows, published, seeded) {
      RefillKeeps(rows, after, published, seeded, date);
    } else if FillRound(after, seeded, date) == after && ByesOf(seeded) == map[] {
      RefillChanges(rows, after, published, seeded, date);
    }
  }

  lemma {:induction false} StillOpen(rows: Rows, after: Rows, published: seq<Pair>)
    requires FilledWith(rows, after, published) && Mixed(rows)
    ensures !Defined(after)
  {
    var s :| s in rows && !rows[s].status.Scheduled? && !Filled(rows[s]);
    assert s in after && !Filled(after[s]);
  }

  lemma {:induction false} LabelGone(rows: Rows, after: Rows, published: seq<Pair>, source: Source)
    requires FilledWith(rows, after, published) && Mixed(rows) && forall s | s in rows :: RealSlot(published, s)
    ensures PublishedPairs(source, after).None?
  {
    var s :| s in rows && rows[s].status.Scheduled?;
    var i :| 0 <= i < |published| && published[i].order == s && published[i].entryB.Some?;
    assert HostsOnly(after, published[i]);
    MissingLabelHidesPublication(source, after, s);
  }

  /** A publication used in full, or not at all, is not used again. */
  lemma {:induction false} PublishedTwice(setup: Setup, b: Bracket, date: Date, date': Date)
    requires DefinedRounds(b) == {} && PublishedPairs(b.source, RowsAt(b, 1)).Some? && !Mixed(RowsAt(b, 1))
    ensures
      var b' := Progress(setup, b, date);
      Progress(setup, b', date') == b' && StatusAfter(setup, b', Ongoing) == Ongoing
  {
    var rows, published := RowsAt(b, 1), PublishedPairs(b.source, RowsAt(b, 1)).value;
    PublishedForEverySlot(b.source, rows);
    assert HasMatch(published) by { assert published[0].entryB.Some?; }
    if Defined(FillRound(rows, published, date)) {
      AfterFullRound(setup, b, published, date, date');
    } else {
      UnusedTwice(setup, b, published, date, date');
    }
  }

  lemma {:induction false} UnusedTwice(setup: Setup, b: Bracket, published: seq<Pair>, date: Date, date': Date)
    requires DefinedRounds(b) == {} && PublishedPairs(b.source, RowsAt(b, 1)) == Some(published)
    requires !Mixed(RowsAt(b, 1)) && !Defined(FillRound(RowsAt(b, 1), published, date)) && HasMatch(published)
    ensures
      var b' := WithRound(b, 1, published, date);
      Progress(setup, b', date') == b' && StatusAfter(setup, b', Ongoing) == Ongoing
  {
    var rows := RowsAt(b, 1);
    PublishedForEverySlot(b.source, rows);
    PublicationFills(b.source, rows, date);
    FirstUndefined(b);
    NothingFilled(rows, FillRound(rows, published, date), published);
    AfterOpenRound(setup, b, published, date, date');
    SameRoundSameBracket(WithRound(b, 1, published, date), published, date');
    FillRoundTwice(rows, published, date, date');
  }

  lemma {:induction false} ScheduledAreFilled(rows: Rows, after: Rows, published: seq<Pair>)
    requires FilledWith(rows, after, published) && forall s | s in rows :: RealSlot(published, s)
    ensures forall s | s in rows && rows[s].status.Scheduled? :: Filled(after[s])
  {
    forall s | s in rows && rows[s].status.Scheduled? ensures Filled(after[s]) {
      var i :| 0 <= i < |published| && published[i].order == s && published[i].entryB.Some?;
      assert HostsOnly(after, published[i]);
    }
  }

  lemma {:induction false} NothingFilled(rows: Rows, after: Rows, published: seq<Pair>)
    requires FilledWith(rows, after, published) && !Mixed(rows) && rows != map[] && !Defined(after)
    requires forall s | s in rows :: RealSlot(published, s)
    ensures after == rows
  {
    ScheduledAreFilled(rows, after, published);
    var t :| t in after && !Filled(after[t]);
    assert t in rows && !rows[t].status.Scheduled? && !Filled(rows[t]);
  }

  // ----- A second recomputation after a round is complete -----

  lemma {:induction false} FillThirdTwice(third: Option<KoMatch>, pair: Pair, date: Date, date': Date)
    ensures FillThird(Some(FillThird(third, pair, date)), pair, date') == FillThird(third, pair, date)
  {
    RefillMatch(third, pair, date, date');
  }

  lemma {:induction false} NextRoundTwice(setup: Setup, b: Bracket, last: nat, date: Date, date': Date)
    requires Advances(b, last)
    ensures Advance(setup, Advance(setup, b, last, date), last, date') == Advance(setup, b, last, date)
  {
    var pairs := SequentialPairs(Advancers(RowsAt(b, last), ByesAt(b, last)));
    var b' := Advance(setup, b, last, date);
    SequentialPairsProper(Advancers(RowsAt(b, last), ByesAt(b, last)));
    AdvanceShape(setup, b, last, date);
    assert SameRound(b, b', last);
    FillRoundTwice(RowsAt(b, last + 1), pairs, date, date');
    assert ThirdPlace(setup, b', last, date') == b'.third by {
      ThirdTwice(setup, b, b', last, date, date');
    }
    assert b'.rounds[last + 1 := RowsAt(b', last + 1)] == b'.rounds;
    assert b'.byes[last + 1 := ByesOf(pairs)] == b'.byes;
  }

  lemma {:induction false} ThirdTwice(setup: Setup, b: Bracket, b': Bracket, last: nat, date: Date, date': Date)
    requires AllWon(RowsAt(b, last)) && SameRound(b, b', last) && b'.third == ThirdPlace(setup, b, last, date)
    ensures ThirdPlace(setup, b', last, date') == b'.third
  {
    var pair := ThirdPair(RowsAt(b, last), ByesAt(b, last));
    if setup.thirdPlaceMatch && pair.Some? {
      FillThirdTwice(b.third, pair.value, date, date');
    }
  }

  lemma {:induction false} DefinedRoundsAfter(b: Bracket, b': Bracket, last: nat)
    requires last in DefinedRounds(b) && forall r | r in DefinedRounds(b) :: r <= last
    requires forall r: nat | r != last + 1 :: SameRound(b, b', r)
    ensures DefinedRounds(b') != {} && MaxOf(DefinedRounds(b')) == if Defined(RowsAt(b', last + 1)) then last + 1 else last
  {
    assert SameRound(b, b', last);
    forall r | r in DefinedRounds(b') ensures r <= last + 1 {
      if r != last + 1 {
        assert SameRound(b, b', r);
        assert r in DefinedRounds(b);
      }
    }
    assert last in DefinedRounds(b');
    assert last + 1 in DefinedRounds(b') <==> Defined(RowsAt(b', last + 1));
  }

  /** After the next round was created or filled, it is the reference, or still the same one is. */
  lemma {:induction false} AfterAdvance(setup: Setup, b: Bracket, last: nat, date: Date, date': Date)
    requires DefinedRounds(b) != {} && last == MaxOf(DefinedRounds(b)) && Advances(b, last)
    ensures
      var b' := Advance(setup, b, last, date);
      Progress(setup, b', date') == b' && StatusAfter(setup, b', Ongoing) == Ongoing
  {
    var b' := Advance(setup, b, last, date);
    var winners := Advancers(RowsAt(b, last), ByesAt(b, last));
    assert !Defined(RowsAt(b, last + 1)) by {
      assert last + 1 in DefinedRounds(b) <==> Defined(RowsAt(b, last + 1));
    }
    AdvanceShape(setup, b, last, date);
    SequentialPairsProper(winners);
    DefinedRoundsAfter(b, b', last);
    if Defined(RowsAt(b', last + 1)) {
      FilledRoundIsNotOver(RowsAt(b, last + 1), SequentialPairs(winners), date);
    } else {
      NextRoundTwice(setup, b, last, date, date');
      assert SameRound(b, b', last);
    }
  }

  /** Once some round is complete, recomputing twice is recomputing once, whatever state the matches are in. */
  lemma {:induction false} LaterRoundTwice(setup: Setup, b: Bracket, date: Date, date': Date)
    requires DefinedRounds(b) != {}
    ensures Progress(setup, Progress(setup, b, date), date') == Progress(setup, b, date)
    ensures Progress(setup, b, date) == b || StatusAfter(setup, Progress(setup, b, date), Ongoing) == Ongoing
  {
    var last := MaxOf(DefinedRounds(b));
    AdvanceShape(setup, b, last, date);
    if Advances(b, last) {
      AfterAdvance(setup, b, last, date, date');
    }
  }

  // ----- Twice is once, exactly -----

  lemma {:induction false} FirstRoundTwice(setup: Setup, b: Bracket, date: Date, date': Date)
    requires DefinedRounds(b) == {}
    ensures
      Progress(setup, Progress(setup, b, date), date') == Progress(setup, b, date) <==>
      (Contested(b) ==> SeedingAgrees(setup, b))
    ensures Progress(setup, b, date) == b || StatusAfter(setup, Progress(setup, b, date), Ongoing) == Ongoing
  {
    if Contested(b) {
      AfterPartialPublication(setup, b, date, date');
    } else if !b.source.Pending? && HasMatch(FirstPairs(setup, b)) {
      if PublishedPairs(b.source, RowsAt(b, 1)).Some? {
        PublishedTwice(setup, b, date, date');
      } else {
        SeededTwice(setup, b, date, date');
      }
    }
  }

  /**
   * For every bracket and whatever dates the two would give new matches: a second recomputation changes nothing if
   * and only if the first does not use a part of a publication that the seeding would fill differently.
   */
  lemma {:induction false} TwiceIsOnceExactly(setup: Setup, b: Bracket, date: Date, date': Date)
    ensures
      Progress(setup, Progress(setup, b, date), date') == Progress(setup, b, date) <==>
      (Contested(b) ==> SeedingAgrees(setup, b))
  {
    if DefinedRounds(b) == {} {
      FirstRoundTwice(setup, b, date, date');
    } else {
      LaterRoundTwice(setup, b, date, date');
    }
  }

  /** The status settles at the first recomputation, always. */
  lemma {:induction false} StatusIsIdempotent(setup: Setup, b: Bracket, status: TournamentStatus, date: Date)
    ensures
      StatusAfter(setup, Progress(setup, b, date), StatusAfter(setup, b, status)) == StatusAfter(setup, b, status)
  {
    if DefinedRounds(b) == {} {
      FirstRoundTwice(setup, b, date, date);
    } else {
      LaterRoundTwice(setup, b, date, date);
    }
  }

  /** The condition read without the definitions: outside the first round's publication nothing can go wrong. */
  lemma {:induction false} TwiceIsOnce(setup: Setup, b: Bracket, date: Date, date': Date)
    requires DefinedRounds(b) != {} || PublishedPairs(b.source, RowsAt(b, 1)).None? || AllScheduled(RowsAt(b, 1))
    ensures Progress(setup, Progress(setup, b, date), date') == Progress(setup, b, date)
  {
    TwiceIsOnceExactly(setup, b, date, date');
  }
}
