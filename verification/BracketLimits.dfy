/**
 * What goes wrong outside the guards, on brackets that runs reach: a published match that leaves Scheduled before its
 * participants are known, and a walkover declared again under a round that was built on it.
 */
module BracketLimits {
  import opened Wrappers
  import opened Entries
  import opened NatSets
  import opened Statuses
  import opened Seeding
  import opened KnockoutPhase
  import opened BracketInvariant
  import opened BracketRecompute
  import opened BracketResults
  import opened BracketRuns

  // ----- A part of a publication, then the seeding: the general case -----

  /**
   * A published match waits postponed while another is filled. If the seeding places an entry of the filled match in
   * the waiting slot, then starting the one and rescheduling the other makes the entry play twice.
   */
  lemma {:induction false} ContestedRepeatsAnEntry(setup: Setup, b: Bracket, i: nat, j: nat, e: Entry, date: Date)
    requires Contested(b) && i < |PublishedPairs(b.source, RowsAt(b, 1)).value| && j < |Seeded(setup, b)|
    requires Meets(PublishedPairs(b.source, RowsAt(b, 1)).value[i], e) && Meets(Seeded(setup, b)[j], e)
    requires
      var rows, s, t := RowsAt(b, 1), PublishedPairs(b.source, RowsAt(b, 1)).value[i].order, Seeded(setup, b)[j].order;
      && s in rows && rows[s].status.Scheduled?
      && t in rows && rows[t].status.Postponed? && !Filled(rows[t]) && s != t
    ensures
      var s, t := PublishedPairs(b.source, RowsAt(b, 1)).value[i].order, Seeded(setup, b)[j].order;
      var steps := [SetStatus(Slot(1, s), Live), SetStatus(Slot(1, t), Scheduled), Recompute(date)];
      PlaysTwice(RowsAt(Run(setup, Progress(setup, b, date), steps), 1), s, t, e)
  {
    var published, seeded := PublishedPairs(b.source, RowsAt(b, 1)).value, Seeded(setup, b);
    var s, t, once := published[i].order, seeded[j].order, Progress(setup, b, date);
    PublicationUsed(setup, b, date);
    assert HostsOnly(RowsAt(once, 1), published[i]) && RowsAt(once, 1)[t] == RowsAt(b, 1)[t];
    OpenAgainUndefined(b, once, s, t);
    OpenRows(once, s, t);
    FillsFromSeeding(setup, OpenAgain(once, s, t), published[i], seeded, j, e, date);
    OpenAgainRun(setup, once, s, t, date);
  }

  lemma {:induction false} OpenRows(b: Bracket, s: nat, t: nat)
    requires s in RowsAt(b, 1) && t in RowsAt(b, 1) && s != t
    ensures
      var rows, open := RowsAt(b, 1), RowsAt(OpenAgain(b, s, t), 1);
      && OpenAgain(b, s, t).source == b.source && s in open && t in open
      && open[s] == rows[s].(status := Live) && open[t] == rows[t].(status := Scheduled)
  {
  }

  lemma {:induction false} OpenAgainRun(setup: Setup, b: Bracket, s: nat, t: nat, date: Date)
    requires s in RowsAt(b, 1) && t in RowsAt(b, 1) && s != t
    requires RowsAt(b, 1)[s].status.Scheduled? && RowsAt(b, 1)[t].status.Postponed?
    ensures
      Run(setup, b, [SetStatus(Slot(1, s), Live), SetStatus(Slot(1, t), Scheduled), Recompute(date)]) ==
      Progress(setup, OpenAgain(b, s, t), date)
  {
    StatusSteps(setup, b, s, t);
    RunThree(setup, b, SetStatus(Slot(1, s), Live), SetStatus(Slot(1, t), Scheduled), Recompute(date));
  }

  lemma {:induction false} PublicationUsed(setup: Setup, b: Bracket, date: Date)
    requires Contested(b)
    ensures
      var once := Progress(setup, b, date);
      && FilledWith(RowsAt(b, 1), RowsAt(once, 1), PublishedPairs(b.source, RowsAt(b, 1)).value)
      && once.source == b.source && once.rounds.Keys == b.rounds.Keys + {1}
      && forall r: nat | r != 1 :: RowsAt(once, r) == RowsAt(b, r)
  {
    var published := PublishedPairs(b.source, RowsAt(b, 1)).value;
    PublishedHasMatch(b.source, RowsAt(b, 1));
    PublicationFills(b.source, RowsAt(b, 1), date);
    FirstRoundAdded(b, published, date);
    OthersSame(b, WithRound(b, 1, published, date));
  }

  lemma {:induction false} OthersSame(b: Bracket, b': Bracket)
    requires forall r: nat | r != 1 :: SameRound(b, b', r)
    ensures forall r: nat | r != 1 :: RowsAt(b', r) == RowsAt(b, r)
  {
    forall r: nat | r != 1 ensures RowsAt(b', r) == RowsAt(b, r) {
      assert SameRound(b, b', r);
    }
  }

  lemma {:induction false} PublishedHasMatch(source: Source, rows: Rows)
    requires PublishedPairs(source, rows).Some?
    ensures HasMatch(PublishedPairs(source, rows).value)
  {
    PublishedForEverySlot(source, rows);
    assert PublishedPairs(source, rows).value[0].entryB.Some?;
  }

  lemma {:induction false} StatusSteps(setup: Setup, b: Bracket, s: nat, t: nat)
    requires s in RowsAt(b, 1) && t in RowsAt(b, 1) && s != t
    requires RowsAt(b, 1)[s].status.Scheduled? && RowsAt(b, 1)[t].status.Postponed?
    ensures Take(setup, Take(setup, b, SetStatus(Slot(1, s), Live)), SetStatus(Slot(1, t), Scheduled)) == OpenAgain(b, s, t)
  {
    var started := Store(b, Slot(1, s), RowsAt(b, 1)[s].(status := Live));
    assert Take(setup, b, SetStatus(Slot(1, s), Live)) == started;
    assert Lookup(started, Slot(1, t)) == Some(RowsAt(b, 1)[t]);
  }

  predicate Meets(pair: Pair, e: Entry) {
    pair.entryB.Some? && (pair.entryA == e || pair.entryB == Some(e))
  }

  predicate PlaysTwice(rows: Rows, s: nat, t: nat, e: Entry) {
    && s != t && s in rows && t in rows
    && Filled(rows[s]) && IsEntrant(rows[s], e) && Filled(rows[t]) && IsEntrant(rows[t], e)
  }

  /** The bracket with one match started and another scheduled again. */
  function OpenAgain(b: Bracket, s: nat, t: nat): Bracket
    requires s in RowsAt(b, 1) && t in RowsAt(b, 1)
  {
    var started := Store(b, Slot(1, s), RowsAt(b, 1)[s].(status := Live));
    Store(started, Slot(1, t), RowsAt(started, 1)[t].(status := Scheduled))
  }

  lemma {:induction false} OpenAgainUndefined(b: Bracket, once: Bracket, s: nat, t: nat)
    requires DefinedRounds(b) == {} && once.rounds.Keys == b.rounds.Keys + {1}
    requires forall r: nat | r != 1 :: RowsAt(once, r) == RowsAt(b, r)
    requires s in RowsAt(once, 1) && t in RowsAt(once, 1) && s != t && !Filled(RowsAt(once, 1)[t])
    ensures DefinedRounds(OpenAgain(once, s, t)) == {}
  {
    var open := OpenAgain(once, s, t);
    assert t in RowsAt(open, 1) && !Filled(RowsAt(open, 1)[t]);
    forall r | r in open.rounds ensures !Defined(open.rounds[r]) {
      if r != 1 {
        assert RowsAt(open, r) == RowsAt(b, r);
        assert r in DefinedRounds(b) <==> Defined(RowsAt(b, r));
      }
    }
  }

  lemma {:induction false} FillsFromSeeding(
      setup: Setup, open: Bracket, hosted: Pair, seeded: seq<Pair>, j: nat, e: Entry, date: Date)
    requires DefinedRounds(open) == {} && !open.source.Pending? && seeded == Seeded(setup, open) && j < |seeded|
    requires Meets(hosted, e) && Meets(seeded[j], e) && hosted.order != seeded[j].order
    requires HostsOnly(RowsAt(open, 1), hosted) && RowsAt(open, 1)[hosted.order].status.Live?
    requires seeded[j].order in RowsAt(open, 1) && RowsAt(open, 1)[seeded[j].order].status.Scheduled?
    ensures PlaysTwice(RowsAt(Progress(setup, open, date), 1), hosted.order, seeded[j].order, e)
  {
    var now := RowsAt(open, 1);
    MissingLabelHidesPublication(open.source, now, hosted.order);
    assert FirstPairs(setup, open) == seeded && HasMatch(seeded);
    SeededInOrder(setup, open);
    FillRoundAt(now, seeded, date, j);
    FillRoundPreserves(now, seeded, date, hosted.order);
  }

  lemma {:induction false} RunThree(setup: Setup, b: Bracket, x: Step, y: Step, z: Step)
    ensures Run(setup, b, [x, y, z]) == Take(setup, Take(setup, Take(setup, b, x), y), z)
  {
    assert [x, y, z][..2] == [x, y] && [x, y][..1] == [x] && [x][..0] == [];
    assert Run(setup, b, [x]) == Take(setup, b, x);
    assert Run(setup, b, [x, y]) == Take(setup, Take(setup, b, x), y);
  }

  // ----- A published bracket whose crossing is not the seeded one -----

  const SETUP: Setup := Setup(Standard, false)

  /** Entries 1 to 4 in seeding order; the published bracket crosses 1-2 and 3-4. */
  const SOURCE: Source := Classified([1, 2, 3, 4], map[10 := 1, 11 := 2, 12 := 3, 13 := 4])

  const PUBLISHED: seq<Pair> := [Pair(1, 1, Some(2)), Pair(2, 3, Some(4))]

  const SEEDED: seq<Pair> := [Pair(1, 1, Some(4)), Pair(2, 2, Some(3))]

  function Published(status: Status, labelA: Label, labelB: Label): KoMatch {
    KoMatch(None, None, Some(labelA), Some(labelB), None, status, 0, 7)
  }

  /** As published; the second match has this status. */
  function TwoSlots(source: Source, status: Status): Bracket {
    Bracket(source, map[1 := map[1 := Published(Scheduled, 10, 11), 2 := Published(status, 12, 13)]], None, map[])
  }

  lemma {:induction false} OneAndTwo(rows: Rows)
    requires rows.Keys == {1, 2}
    ensures Sorted(rows.Keys) == [1, 2]
  {
    AscendingUnique(Sorted(rows.Keys), [1, 2]);
  }

  lemma {:induction false} SeedsOfFour()
    ensures SeedPairs([1, 2, 3, 4], Standard) == SEEDED
  {
    assert CeilLog2(2) == 1 && CeilLog2(4) == 2 && Pow2(2) == 4;
    assert BracketSize(4) == 4;
  }

  lemma {:induction false} PublishedNamesNobodyTwice()
    ensures NoRepeats(PUBLISHED)
  {
    assert EntrantAt(PUBLISHED, 0) == Some(1) && EntrantAt(PUBLISHED, 1) == Some(2);
    assert EntrantAt(PUBLISHED, 2) == Some(3) && EntrantAt(PUBLISHED, 3) == Some(4);
  }

  lemma {:induction false} PublishedTwo(rows: Rows, first: Pair, second: Pair)
    requires 1 in rows && PublishedPair(SOURCE.placed, 1, rows[1]) == Some(first)
    requires 2 in rows && PublishedPair(SOURCE.placed, 2, rows[2]) == Some(second)
    ensures PublishedPairsFrom(SOURCE.placed, rows, [1, 2]) == Some([first, second])
  {
    var one, two := [1], [1, 2];
    assert two[..1] == one && one[..0] == [];
    assert [] + [first] == [first] && [first] + [second] == [first, second];
    assert PublishedPairsFrom(SOURCE.placed, rows, one[..0]) == Some([]);
    assert PublishedPairsFrom(SOURCE.placed, rows, one) == Some([first]);
  }

  lemma {:induction false} PublicationResolves(b: Bracket, status: Status)
    requires b == TwoSlots(SOURCE, status)
    ensures PublishedPairs(b.source, RowsAt(b, 1)) == Some(PUBLISHED)
  {
    var rows := RowsAt(b, 1);
    OneAndTwo(rows);
    PublishedTwo(rows, PUBLISHED[0], PUBLISHED[1]);
    PublishedNamesNobodyTwice();
    assert PublishedPairsFrom(SOURCE.placed, rows, Sorted(rows.Keys)) == Some(PUBLISHED);
  }

  lemma {:induction false} PostponedRounds(b: Bracket, status: Status)
    requires b == TwoSlots(SOURCE, status) && status.Postponed?
    ensures
      b.rounds.Keys == {1} && Mixed(RowsAt(b, 1)) && !Defined(RowsAt(b, 1)) && !Started(RowsAt(b, 1))
  {
    var rows := RowsAt(b, 1);
    assert 1 in rows && rows[1].status.Scheduled?;
    assert 2 in rows && !rows[2].status.Scheduled? && !Filled(rows[2]);
  }

  lemma {:induction false} PostponedIsContested(b: Bracket, status: Status)
    requires b == TwoSlots(SOURCE, status) && status.Postponed?
    ensures Contested(b)
  {
    PublicationResolves(b, status);
    PostponedRounds(b, status);
    OnlyRoundContested(b, PUBLISHED);
  }

  lemma {:induction false} OnlyRoundContested(b: Bracket, pairs: seq<Pair>)
    requires b.rounds.Keys == {1} && !Defined(RowsAt(b, 1)) && Mixed(RowsAt(b, 1))
    requires PublishedPairs(b.source, RowsAt(b, 1)) == Some(pairs)
    ensures Contested(b)
  {
  }

  lemma {:induction false} SeededFromSource(b: Bracket)
    requires b.source == SOURCE
    ensures Seeded(SETUP, b) == SEEDED
  {
    SeedsOfFour();
  }

  /** The two crossings share no match. */
  lemma {:induction false} CrossingsDisagree(rows: Rows)
    requires rows == RowsAt(TwoSlots(SOURCE, Postponed), 1)
    ensures !SameWhereFilled(rows, PUBLISHED, SEEDED) && !AgreesWhereFilled(rows, PUBLISHED, SEEDED) && HasMatch(SEEDED)
  {
    assert SEEDED[0] !in PUBLISHED && SEEDED[0].order in rows && rows[SEEDED[0].order].status.Scheduled?;
    assert PUBLISHED[0] !in SEEDED && PUBLISHED[0].order in rows && rows[PUBLISHED[0].order].status.Scheduled?;
    assert SEEDED[0].entryB.Some?;
  }

  /** With the second match postponed, recomputing twice is not recomputing once, and the round is no pairing at all. */
  lemma {:induction false} PostponedLabelBreaksIdempotence(date: Date, date': Date)
    ensures
      var b := TwoSlots(SOURCE, Postponed);
      && Progress(SETUP, Progress(SETUP, b, date), date') != Progress(SETUP, b, date)
      && !FirstOk(SEEDED, Progress(SETUP, b, date))
  {
    var b := TwoSlots(SOURCE, Postponed);
    PostponedIsContested(b, Postponed);
    SeededFromSource(b);
    PublicationResolves(b, Postponed);
    CrossingsDisagree(RowsAt(b, 1));
    BreaksWhenContested(b, date, date');
  }

  lemma {:induction false} BreaksWhenContested(b: Bracket, date: Date, date': Date)
    requires b == TwoSlots(SOURCE, Postponed) && Contested(b) && !SeedingAgrees(SETUP, b) && !SeedingMatches(SETUP, b)
    requires Seeded(SETUP, b) == SEEDED
    ensures Progress(SETUP, Progress(SETUP, b, date), date') != Progress(SETUP, b, date)
    ensures !FirstOk(SEEDED, Progress(SETUP, b, date))
  {
    TwiceIsOnceExactly(SETUP, b, date, date');
    PublishedIsConsistent(SOURCE, Postponed);
    PartlyPublishedDisagrees(SETUP, b, date);
  }

  lemma {:induction false} PublishedIsConsistent(source: Source, status: Status)
    requires source == SOURCE || source == Pending
    ensures Consistent(Seeded(SETUP, TwoSlots(source, status)), TwoSlots(source, status))
  {
    var b := TwoSlots(source, status);
    assert !Started(RowsAt(b, 1));
    forall r: nat ensures LaterOk(b, r) {
    }
  }

  /** The second match is postponed before the groups are decided. */
  function PostponeRun(date: Date): seq<Step> {
    [SetStatus(Slot(1, 2), Postponed), Classify(SOURCE, date)]
  }

  /** The first match starts, and the second is scheduled again. */
  function RescheduleRun(date: Date): seq<Step> {
    [SetStatus(Slot(1, 1), Live), SetStatus(Slot(1, 2), Scheduled), Recompute(date)]
  }

  /** A run from a bracket as published to one in which entry 2 plays in both matches of the first round. */
  lemma {:induction false} PostponedLabelRepeatsAnEntry(date: Date)
    ensures Initial(TwoSlots(Pending, Scheduled))
    ensures
      PlaysTwice(RowsAt(Run(SETUP, TwoSlots(Pending, Scheduled), PostponeRun(date) + RescheduleRun(date)), 1), 1, 2, 2)
  {
    PostponedThenClassified(TwoSlots(Pending, Scheduled), date);
    RepeatsAfterClassified(TwoSlots(SOURCE, Postponed), date);
    RunJoined(SETUP, TwoSlots(Pending, Scheduled), PostponeRun(date), RescheduleRun(date));
  }

  lemma {:induction false} RepeatsAfterClassified(b: Bracket, date: Date)
    requires b == TwoSlots(SOURCE, Postponed)
    ensures PlaysTwice(RowsAt(Run(SETUP, Progress(SETUP, b, date), RescheduleRun(date)), 1), 1, 2, 2)
  {
    PostponedIsContested(b, Postponed);
    SeededFromSource(b);
    PublicationResolves(b, Postponed);
    ContestedRepeatsAnEntry(SETUP, b, 0, 1, 2, date);
  }

  lemma {:induction false} PostponedThenClassified(b: Bracket, date: Date)
    requires b == TwoSlots(Pending, Scheduled)
    ensures Run(SETUP, b, PostponeRun(date)) == Progress(SETUP, TwoSlots(SOURCE, Postponed), date)
  {
    var c, d := TwoSlots(Pending, Postponed), Progress(SETUP, TwoSlots(SOURCE, Postponed), date);
    PostponedIsStored();
    ClassifiedIsStored(date);
    RunTwo(SETUP, b, c, d, SetStatus(Slot(1, 2), Postponed), Classify(SOURCE, date));
  }

  lemma {:induction false} RunTwo(setup: Setup, b: Bracket, c: Bracket, d: Bracket, x: Step, y: Step)
    requires Take(setup, b, x) == c && Take(setup, c, y) == d
    ensures Run(setup, b, [x, y]) == d
  {
    assert [x, y][..1] == [x] && [x][..0] == [];
    assert Run(setup, b, [x]) == c;
  }

  lemma {:induction false} PostponedIsStored()
    ensures
      Take(SETUP, TwoSlots(Pending, Scheduled), SetStatus(Slot(1, 2), Postponed)) == TwoSlots(Pending, Postponed)
  {
    var b := TwoSlots(Pending, Scheduled);
    assert RowsAt(b, 1)[2 := Published(Postponed, 12, 13)] == RowsAt(TwoSlots(Pending, Postponed), 1);
  }

  lemma {:induction false} ClassifiedIsStored(date: Date)
    ensures
      Take(SETUP, TwoSlots(Pending, Postponed), Classify(SOURCE, date)) ==
      Progress(SETUP, TwoSlots(SOURCE, Postponed), date)
  {
    ClassifyIsProgress(SETUP, TwoSlots(Pending, Postponed), SOURCE, date);
    assert TwoSlots(Pending, Postponed).(source := SOURCE) == TwoSlots(SOURCE, Postponed);
  }

  lemma {:induction false} ClassifyIsProgress(setup: Setup, b: Bracket, source: Source, date: Date)
    requires SourceOk(source)
    ensures Take(setup, b, Classify(source, date)) == Progress(setup, b.(source := source), date)
  {
  }

  lemma {:induction false} RunJoined(setup: Setup, b: Bracket, first: seq<Step>, later: seq<Step>)
    ensures Run(setup, b, first + later) == Run(setup, Run(setup, b, first), later)
    decreases |later|
  {
    if later == [] {
      assert first + later == first;
    } else {
      var n := |later| - 1;
      assert (first + later)[..|first| + n] == first + later[..n];
      RunJoined(setup, b, first, later[..n]);
    }
  }

  // ----- A walkover declared again after the final was created -----

  const FOUR: Source := EntryList([1, 2, 3, 4])

  function Playing(status: Status, winner: Option<Entry>, a: Entry, b: Entry, date: Date): KoMatch {
    KoMatch(Some(a), Some(b), None, None, winner, status, date, TO_BE_DEFINED)
  }

  /** The two semifinals of a bracket of four, and what came after them. */
  function Semifinals(first: KoMatch, second: KoMatch, rounds: map<nat, Rows>, byes: map<nat, Byes>): Bracket {
    Bracket(FOUR, rounds[1 := map[1 := first, 2 := second]], None, byes[1 := map[]])
  }

  lemma {:induction false} SemifinalsCreated(date: Date)
    ensures
      Progress(SETUP, Bracket(FOUR, map[], None, map[]), date) ==
      Semifinals(Playing(Scheduled, None, 1, 4, date), Playing(Scheduled, None, 2, 3, date), map[], map[])
  {
    var b := Bracket(FOUR, map[], None, map[]);
    SeedsOfFour();
    assert FirstPairs(SETUP, b) == SEEDED;
    assert SEEDED[..1] == [SEEDED[0]] && [SEEDED[0]][..0] == [];
    assert FillRound(map[], [SEEDED[0]], date) == map[1 := Playing(Scheduled, None, 1, 4, date)];
    assert ByesOf([SEEDED[0]]) == map[];
    assert HasMatch(SEEDED) by { assert SEEDED[0].entryB.Some?; }
  }

  lemma {:induction false} OnlySemifinals(first: KoMatch, second: KoMatch)
    requires Filled(first) && Filled(second)
    ensures DefinedRounds(Semifinals(first, second, map[], map[])) == {1}
  {
    var b := Semifinals(first, second, map[], map[]);
    assert 1 in b.rounds[1] && b.rounds.Keys == {1} && Defined(b.rounds[1]);
  }

  lemma {:induction false} WaitsForSecond(first: KoMatch, second: KoMatch, date: Date)
    requires Filled(first) && Filled(second) && !Official(second.status)
    ensures
      var b := Semifinals(first, second, map[], map[]);
      Progress(SETUP, b, date) == b
  {
    OnlySemifinals(first, second);
    assert MaxOf({1}) == 1;
    assert 2 in RowsAt(Semifinals(first, second, map[], map[]), 1);
  }

  lemma {:induction false} SemifinalSlots(rows: Rows, byes: Byes)
    requires rows.Keys == {1, 2} && byes == map[]
    ensures SlotOrders(rows, byes) == [1, 2]
  {
    var both := set s | s in rows.Keys + byes.Keys && s > 0;
    assert both == {1, 2};
    AscendingUnique(Sorted(both), [1, 2]);
  }

  lemma {:induction false} SemifinalWinners(rows: Rows)
    requires rows.Keys == {1, 2} && AllWon(rows)
    ensures Advancers(rows, map[]) == [rows[1].winner.value, rows[2].winner.value]
  {
    SemifinalSlots(rows, map[]);
    assert Advancers(rows, map[])[0] == rows[1].winner.value;
  }

  /** Both semifinals are won: the final is created. */
  lemma {:induction false} FinalCreated(first: KoMatch, second: KoMatch, date: Date)
    requires Filled(first) && Filled(second) && Official(first.status) && Official(second.status)
    requires first.winner.Some? && second.winner.Some?
    ensures
      var final := Playing(Scheduled, None, first.winner.value, second.winner.value, date);
      Progress(SETUP, Semifinals(first, second, map[], map[]), date) ==
      Semifinals(first, second, map[2 := map[1 := final]], map[2 := map[]])
  {
    var b := Semifinals(first, second, map[], map[]);
    OnlySemifinals(first, second);
    assert MaxOf({1}) == 1;
    SemifinalWinners(RowsAt(b, 1));
    FinalRound([first.winner.value, second.winner.value], date);
    FinalAdded(b, first, second, date);
  }

  lemma {:induction false} FinalAdded(b: Bracket, first: KoMatch, second: KoMatch, date: Date)
    requires b == Semifinals(first, second, map[], map[]) && first.winner.Some? && second.winner.Some?
    requires
      var pairs := SequentialPairs([first.winner.value, second.winner.value]);
      && FillRound(map[], pairs, date) == map[1 := Playing(Scheduled, None, first.winner.value, second.winner.value, date)]
      && ByesOf(pairs) == map[]
    ensures
      var final := Playing(Scheduled, None, first.winner.value, second.winner.value, date);
      WithRound(b, 2, SequentialPairs([first.winner.value, second.winner.value]), date) ==
      Semifinals(first, second, map[2 := map[1 := final]], map[2 := map[]])
  {
    var final := Playing(Scheduled, None, first.winner.value, second.winner.value, date);
    var rows: Rows := map[1 := first, 2 := second];
    var rounds: map<nat, Rows> := map[2 := map[1 := final]];
    var byes: map<nat, Byes> := map[2 := map[]];
    assert b.rounds[2 := map[1 := final]] == rounds[1 := rows];
    assert b.byes[2 := map[]] == byes[1 := map[]];
  }

  lemma {:induction false} FinalRound(winners: seq<Entry>, date: Date)
    requires |winners| == 2
    ensures
      var pairs := SequentialPairs(winners);
      && FillRound(map[], pairs, date) == map[1 := Playing(Scheduled, None, winners[0], winners[1], date)]
      && ByesOf(pairs) == map[]
  {
    var pairs := SequentialPairs(winners);
    assert pairs == [Pair(1, winners[0], Some(winners[1]))];
    assert pairs[..0] == [];
  }

  /** The first semifinal is given to 1 without play, 2 wins the second, and then the walkover is declared for 4. */
  function RedeclareRun(date: Date): seq<Step> {
    [Recompute(date), Decide(Slot(1, 1), Some(1), Walkover, date), Decide(Slot(1, 2), Some(2), Finished, date),
     Redeclare(Slot(1, 1), 4, date)]
  }

  function FirstGiven(date: Date): KoMatch {
    Playing(Walkover, Some(1), 1, 4, date)
  }

  function SecondWon(date: Date): KoMatch {
    Playing(Finished, Some(2), 2, 3, date)
  }

  function FinalSet(date: Date): Bracket {
    Semifinals(FirstGiven(date), SecondWon(date), map[2 := map[1 := Playing(Scheduled, None, 1, 2, date)]], map[2 := map[]])
  }

  lemma {:induction false} FirstDecided(date: Date)
    ensures
      var created := Semifinals(Playing(Scheduled, None, 1, 4, date), Playing(Scheduled, None, 2, 3, date), map[], map[]);
      Take(SETUP, created, Decide(Slot(1, 1), Some(1), Walkover, date)) ==
      Semifinals(FirstGiven(date), Playing(Scheduled, None, 2, 3, date), map[], map[])
  {
    var created := Semifinals(Playing(Scheduled, None, 1, 4, date), Playing(Scheduled, None, 2, 3, date), map[], map[]);
    var decided := Semifinals(FirstGiven(date), Playing(Scheduled, None, 2, 3, date), map[], map[]);
    StoredSemifinal(created, decided, 1);
    WaitsForSecond(FirstGiven(date), Playing(Scheduled, None, 2, 3, date), date);
  }

  lemma {:induction false} SecondDecided(date: Date)
    ensures
      var decided := Semifinals(FirstGiven(date), Playing(Scheduled, None, 2, 3, date), map[], map[]);
      Take(SETUP, decided, Decide(Slot(1, 2), Some(2), Finished, date)) == FinalSet(date)
  {
    var decided := Semifinals(FirstGiven(date), Playing(Scheduled, None, 2, 3, date), map[], map[]);
    StoredSemifinal(decided, Semifinals(FirstGiven(date), SecondWon(date), map[], map[]), 2);
    FinalCreated(FirstGiven(date), SecondWon(date), date);
  }

  lemma {:induction false} BeforeRedeclare(date: Date)
    ensures Run(SETUP, Bracket(FOUR, map[], None, map[]), RedeclareRun(date)[..3]) == FinalSet(date)
  {
    var steps := RedeclareRun(date);
    var created := Semifinals(Playing(Scheduled, None, 1, 4, date), Playing(Scheduled, None, 2, 3, date), map[], map[]);
    var decided := Semifinals(FirstGiven(date), Playing(Scheduled, None, 2, 3, date), map[], map[]);
    CreatedFirst(date);
    FirstDecided(date);
    SecondDecided(date);
    RunOfThree(SETUP, Bracket(FOUR, map[], None, map[]), created, decided, FinalSet(date), steps[0], steps[1], steps[2]);
    assert steps[..3] == [steps[0], steps[1], steps[2]];
  }

  lemma {:induction false} RunOfThree(
      setup: Setup, b: Bracket, c: Bracket, d: Bracket, e: Bracket, x: Step, y: Step, z: Step)
    requires Take(setup, b, x) == c && Take(setup, c, y) == d && Take(setup, d, z) == e
    ensures Run(setup, b, [x, y, z]) == e
  {
    RunTwo(setup, b, c, d, x, y);
    assert [x, y, z][..2] == [x, y];
  }

  lemma {:induction false} CreatedFirst(date: Date)
    ensures
      Take(SETUP, Bracket(FOUR, map[], None, map[]), Recompute(date)) ==
      Semifinals(Playing(Scheduled, None, 1, 4, date), Playing(Scheduled, None, 2, 3, date), map[], map[])
  {
    SemifinalsCreated(date);
  }

  lemma {:induction false} StoredSemifinal(b: Bracket, b': Bracket, slot: nat)
    requires 1 in b.rounds && slot in b.rounds[1] && 1 in b'.rounds && slot in b'.rounds[1]
    requires b' == b.(rounds := b.rounds[1 := b'.rounds[1]]) && b'.rounds[1] == b.rounds[1][slot := b'.rounds[1][slot]]
    ensures Store(b, Slot(1, slot), b'.rounds[1][slot]) == b'
  {
  }

  /**
   * Reached from an empty bracket of four: the first semifinal is now a walkover for 4, the final still has 1, and it
   * is not the pairing of those who went on.
   */
  lemma {:induction false} RedeclaredWalkoverLeavesFinal(date: Date)
    ensures Initial(Bracket(FOUR, map[], None, map[]))
    ensures
      var now := Run(SETUP, Bracket(FOUR, map[], None, map[]), RedeclareRun(date));
      && !LaterOk(now, 2)
      && RowsAt(now, 1) == map[1 := Playing(Walkover, Some(4), 1, 4, date), 2 := SecondWon(date)]
      && RowsAt(now, 2) == map[1 := Playing(Scheduled, None, 1, 2, date)]
  {
    BeforeRedeclare(date);
    SafeUntilRedeclare(date);
    RunKeepsConsistent(SETUP, Bracket(FOUR, map[], None, map[]), RedeclareRun(date)[..3]);
    FinalStays(FinalSet(date), date);
    LastStep(SETUP, Bracket(FOUR, map[], None, map[]), RedeclareRun(date));
  }

  lemma {:induction false} FinalStays(before: Bracket, date: Date)
    requires before == FinalSet(date) && Consistent(Seeded(SETUP, before), before)
    ensures
      var now := Take(SETUP, before, Redeclare(Slot(1, 1), 4, date));
      && !LaterOk(now, 2)
      && RowsAt(now, 1) == map[1 := Playing(Walkover, Some(4), 1, 4, date), 2 := SecondWon(date)]
      && RowsAt(now, 2) == map[1 := Playing(Scheduled, None, 1, 2, date)]
  {
    FinalSetRows(before, date);
    RedeclareBreaksForGood(SETUP, before, 1, 1, 4, date);
  }

  lemma {:induction false} FinalSetRows(before: Bracket, date: Date)
    requires before == FinalSet(date)
    ensures Enabled(before, Redeclare(Slot(1, 1), 4, date)) && Defined(RowsAt(before, 2))
    ensures RowsAt(before, 2) == map[1 := Playing(Scheduled, None, 1, 2, date)]
    ensures 1 in RowsAt(before, 1) && RowsAt(before, 1)[1] == FirstGiven(date)
    ensures
      RowsAt(before, 1)[1 := RowsAt(before, 1)[1].(winner := Some(4))] ==
      map[1 := Playing(Walkover, Some(4), 1, 4, date), 2 := SecondWon(date)]
  {
    assert RowsAt(before, 1) == map[1 := FirstGiven(date), 2 := SecondWon(date)];
    assert 1 in RowsAt(before, 2);
  }

  lemma {:induction false} LastStep(setup: Setup, b: Bracket, steps: seq<Step>)
    requires steps != []
    ensures Run(setup, b, steps) == Take(setup, Run(setup, b, steps[..|steps| - 1]), steps[|steps| - 1])
  {
  }

  lemma {:induction false} SafeUntilRedeclare(date: Date)
    ensures SafeRun(SETUP, Bracket(FOUR, map[], None, map[]), RedeclareRun(date)[..3])
  {
    var b, steps := Bracket(FOUR, map[], None, map[]), RedeclareRun(date);
    for k := 0 to 3
      invariant SafeRun(SETUP, b, steps[..k]) && Run(SETUP, b, steps[..k]).source == FOUR
    {
      NoPublicationNoContest(Run(SETUP, b, steps[..k]), steps[k]);
      SafeStep(SETUP, b, steps, k);
    }
  }

  lemma {:induction false} SafeStep(setup: Setup, b: Bracket, steps: seq<Step>, k: nat)
    requires k < |steps| && SafeRun(setup, b, steps[..k])
    requires Enabled(Run(setup, b, steps[..k]), steps[k]) ==> Safe(setup, Run(setup, b, steps[..k]), steps[k])
    ensures SafeRun(setup, b, steps[..k + 1])
    ensures Run(setup, b, steps[..k + 1]) == Take(setup, Run(setup, b, steps[..k]), steps[k])
  {
    assert steps[..k + 1][..k] == steps[..k] && steps[..k + 1][k] == steps[k];
  }

  lemma {:induction false} NoPublicationNoContest(b: Bracket, step: Step)
    requires b.source == FOUR && (step.Recompute? || step.Decide?)
    ensures Enabled(b, step) ==> Safe(SETUP, b, step)
    ensures Take(SETUP, b, step).source == FOUR
  {
  }
}
