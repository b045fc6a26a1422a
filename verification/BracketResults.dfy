/** Storing a result: what it may change in a bracket that has been built further. */
module BracketResults {
  import opened Wrappers
  import opened Entries
  import NatSets
  import opened Statuses
  import opened Seeding
  import opened KnockoutPhase
  import opened BracketInvariant

  /** A match of the phase: a bracket slot, or the third-place match. */
  datatype Ref = Slot(round: nat, slot: nat) | Third

  function Lookup(b: Bracket, ref: Ref): Option<KoMatch> {
    match ref
    case Slot(r, s) => MatchAt(RowsAt(b, r), s)
    case Third => b.third
  }

  function Store(b: Bracket, ref: Ref, m: KoMatch): Bracket {
    match ref
    case Slot(r, s) => b.(rounds := b.rounds[r := RowsAt(b, r)[s := m]])
    case Third => b.(third := Some(m))
  }

  // ----- Corrections -----

  predicate HasRoundAfter(b: Bracket, round: nat) {
    exists r | r in b.rounds :: r > round && b.rounds[r] != map[]
  }

  /** A correction depends on every later round, and on the third-place match unless it is of the last round. */
  predicate DownstreamUntouched(b: Bracket, ref: Ref) {
    match ref
    case Third => true
    case Slot(round, _) =>
      && (forall r | r in b.rounds :: r > round ==> AllScheduled(b.rounds[r]))
      && (HasRoundAfter(b, round) && b.third.Some? ==> b.third.value.status.Scheduled?)
  }

  function DeleteDownstream(b: Bracket, ref: Ref): Bracket {
    match ref
    case Third => b
    case Slot(round, _) =>
      b.(rounds := map r | r in b.rounds && r <= round :: b.rounds[r],
         third := if HasRoundAfter(b, round) then None else b.third)
  }

  predicate BracketUntouched(b: Bracket) {
    && (forall r | r in b.rounds :: AllScheduled(b.rounds[r]))
    && (b.third.Some? ==> b.third.value.status.Scheduled?)
  }

  predicate IsEntrant(m: KoMatch, entry: Entry) {
    m.entryA == Some(entry) || m.entryB == Some(entry)
  }

  // ----- What a walkover declared again must not disturb -----

  predicate InMatch(rows: Rows, entry: Entry) {
    exists s :: s in rows && Filled(rows[s]) && IsEntrant(rows[s], entry)
  }

  predicate InByes(byes: Byes, entry: Entry) {
    exists s :: s in byes && byes[s] == entry
  }

  /** The entry has a place in this round. */
  predicate Sits(b: Bracket, round: nat, entry: Entry) {
    Started(RowsAt(b, round)) && (InMatch(RowsAt(b, round), entry) || InByes(ByesAt(b, round), entry))
  }

  ghost predicate ThirdBuiltOn(b: Bracket, round: nat) {
    b.third.Some? && Filled(b.third.value) && ThirdFrom(b, round)
  }

  /** The winner so far has a place in the next round, or the third-place match holds the losers of this one. */
  ghost predicate BuiltUpon(b: Bracket, ref: Ref) {
    match ref
    case Third => false
    case Slot(round, slot) =>
      || ThirdBuiltOn(b, round)
      || (slot in RowsAt(b, round) && RowsAt(b, round)[slot].winner.Some? &&
          Sits(b, round + 1, RowsAt(b, round)[slot].winner.value))
  }

  // ----- Storing a result -----

  /** The match keeps its participants. */
  predicate SameSides(m: KoMatch, m': KoMatch) {
    m'.entryA == m.entryA && m'.entryB == m.entryB
  }

  lemma {:induction false} RoundFitsIgnoresResults(rows: Rows, byes: Byes, pairs: seq<Pair>, slot: nat, m: KoMatch)
    requires RoundFits(rows, byes, pairs) && slot in rows && SameSides(rows[slot], m)
    ensures RoundFits(rows[slot := m], byes, pairs)
  {
    forall i | 0 <= i < |pairs| && pairs[i].entryB.Some? ensures Fits(rows[slot := m], pairs[i]) {
      assert Fits(rows, pairs[i]);
    }
  }

  lemma {:induction false} StartedIgnoresResults(rows: Rows, slot: nat, m: KoMatch)
    requires slot in rows && SameSides(rows[slot], m)
    ensures Started(rows[slot := m]) <==> Started(rows)
    ensures Defined(rows[slot := m]) <==> Defined(rows)
  {
    var rows' := rows[slot := m];
    if Started(rows) {
      var s :| s in rows && Filled(rows[s]);
      assert s in rows' && Filled(rows'[s]);
    }
    if Started(rows') {
      var s :| s in rows' && Filled(rows'[s]);
      assert s in rows && Filled(rows[s]);
    }
    if Defined(rows') {
      forall s | s in rows ensures Filled(rows[s]) {
        assert Filled(rows'[s]);
      }
    }
  }

  /** b' is b with the result of one match changed, its participants kept. */
  ghost predicate ChangesResult(b: Bracket, b': Bracket, round: nat, slot: nat, m: KoMatch) {
    && slot in RowsAt(b, round)
    && SameSides(RowsAt(b, round)[slot], m)
    && RowsAt(b', round) == RowsAt(b, round)[slot := m] && ByesAt(b', round) == ByesAt(b, round)
    && b'.source == b.source && b'.third == b.third
    && forall r: nat | r != round :: SameRound(b, b', r)
  }

  lemma {:induction false} ResultKeepsFirstOk(
      seeded: seq<Pair>, b: Bracket, b': Bracket, round: nat, slot: nat, m: KoMatch)
    requires FirstOk(seeded, b) && ChangesResult(b, b', round, slot, m)
    ensures FirstOk(seeded, b')
  {
    if round != 1 {
      assert SameRound(b, b', 1);
      FirstOkSame(seeded, b, b');
    } else {
      StartedIgnoresResults(RowsAt(b, 1), slot, m);
      if Started(RowsAt(b, 1)) {
        var pairs :| FirstRoundFrom(seeded, b, pairs);
        RoundFitsIgnoresResults(RowsAt(b, 1), ByesAt(b, 1), pairs, slot, m);
        assert FirstRoundFrom(seeded, b', pairs);
      }
    }
  }

  lemma {:induction false} LaterRoundIgnoresResults(b: Bracket, b': Bracket, round: nat, slot: nat, m: KoMatch)
    requires round >= 2 && LaterRound(b, round) && ChangesResult(b, b', round, slot, m)
    ensures LaterRound(b', round)
  {
    assert SameRound(b, b', round - 1);
    var pairs := SequentialPairs(Advancers(RowsAt(b, round - 1), ByesAt(b, round - 1)));
    RoundFitsIgnoresResults(RowsAt(b, round), ByesAt(b, round), pairs, slot, m);
  }

  lemma {:induction false} ChangedRoundLaterOk(b: Bracket, b': Bracket, round: nat, slot: nat, m: KoMatch)
    requires LaterOk(b, round) && ChangesResult(b, b', round, slot, m)
    ensures LaterOk(b', round)
  {
    StartedIgnoresResults(RowsAt(b, round), slot, m);
    if round >= 2 && Started(RowsAt(b, round)) {
      LaterRoundIgnoresResults(b, b', round, slot, m);
    }
  }

  lemma {:induction false} ResultKeepsLaterOk(b: Bracket, b': Bracket, round: nat, slot: nat, m: KoMatch, r: nat)
    requires LaterOk(b, r) && ChangesResult(b, b', round, slot, m) && !Started(RowsAt(b, round + 1))
    ensures LaterOk(b', r)
  {
    if r == round {
      ChangedRoundLaterOk(b, b', round, slot, m);
    } else {
      assert SameRound(b, b', r);
      if r >= 1 && r - 1 != round {
        assert SameRound(b, b', r - 1);
        LaterOkSame(b, b', r);
      }
    }
  }

  lemma {:induction false} OtherThirdStays(b: Bracket, b': Bracket, round: nat, slot: nat, m: KoMatch, r: nat)
    requires ChangesResult(b, b', round, slot, m) && ThirdFrom(b, r) && r != round
    ensures ThirdFrom(b', r)
  {
    assert SameRound(b, b', r);
    assert r + 1 != round ==> SameRound(b, b', r + 1);
    assert r + 1 == round ==> slot in RowsAt(b', round);
    ThirdFromSame(b, b', r);
  }

  lemma {:induction false} ResultKeepsThirdOk(b: Bracket, b': Bracket, round: nat, slot: nat, m: KoMatch)
    requires ThirdOk(b) && ChangesResult(b, b', round, slot, m) && !ThirdBuiltOn(b, round)
    ensures ThirdOk(b')
  {
    if b.third.Some? && Filled(b.third.value) {
      var r: nat :| ThirdFrom(b, r);
      OtherThirdStays(b, b', round, slot, m, r);
    }
  }

  /** A result may change freely as long as nothing has been built on it. */
  lemma {:induction false} ResultKeepsConsistent(seeded: seq<Pair>, b: Bracket, round: nat, slot: nat, m: KoMatch)
    requires Consistent(seeded, b) && slot in RowsAt(b, round) && MatchOk(m)
    requires !Started(RowsAt(b, round + 1)) && !ThirdBuiltOn(b, round)
    requires SameSides(RowsAt(b, round)[slot], m)
    ensures Consistent(seeded, Store(b, Slot(round, slot), m))
  {
    var b' := Store(b, Slot(round, slot), m);
    ResultKeepsFirstOk(seeded, b, b', round, slot, m);
    forall r: nat ensures LaterOk(b', r) {
      assert LaterOk(b, r);
      ResultKeepsLaterOk(b, b', round, slot, m, r);
    }
    ResultKeepsThirdOk(b, b', round, slot, m);
    assert round in b.rounds && RowsOk(RowsAt(b, round));
    RowsAllOkAfter(b, b', round);
  }

  lemma {:induction false} ThirdKeepsConsistent(seeded: seq<Pair>, b: Bracket, m: KoMatch)
    requires Consistent(seeded, b) && b.third.Some? && MatchOk(m)
    requires SameSides(b.third.value, m)
    ensures Consistent(seeded, Store(b, Third, m))
  {
    var b' := Store(b, Third, m);
    FirstOkSame(seeded, b, b');
    forall r: nat ensures LaterOk(b', r) {
      assert LaterOk(b, r);
      LaterOkSame(b, b', r);
    }
    if Filled(m) {
      var r: nat :| ThirdFrom(b, r);
      ThirdIgnoresResult(b, b', r);
    }
  }

  lemma {:induction false} ThirdIgnoresResult(b: Bracket, b': Bracket, round: nat)
    requires ThirdFrom(b, round) && b'.third.Some? && SameRound(b, b', round) && SameRound(b, b', round + 1)
    requires b'.third.value.entryA == b.third.value.entryA && b'.third.value.entryB == b.third.value.entryB
    ensures ThirdFrom(b', round)
  {
    var s, t :| SemifinalLosers(RowsAt(b, round), ByesAt(b, round), b.third.value, s, t);
    assert SemifinalLosers(RowsAt(b', round), ByesAt(b', round), b'.third.value, s, t);
  }

  /** Deleting everything after a round leaves a consistent shorter bracket. */
  lemma {:induction false} DeleteKeepsConsistent(seeded: seq<Pair>, b: Bracket, round: nat, slot: nat)
    requires Consistent(seeded, b) && round >= 1
    ensures Consistent(seeded, DeleteDownstream(b, Slot(round, slot)))
    ensures forall r: nat | r <= round :: SameRound(b, DeleteDownstream(b, Slot(round, slot)), r)
    ensures !Started(RowsAt(DeleteDownstream(b, Slot(round, slot)), round + 1))
  {
    var b' := DeleteDownstream(b, Slot(round, slot));
    forall r: nat | r <= round ensures SameRound(b, b', r) {
    }
    assert SameRound(b, b', 1);
    FirstOkSame(seeded, b, b');
    forall r: nat ensures LaterOk(b', r) {
      assert LaterOk(b, r);
      if 1 <= r <= round {
        assert SameRound(b, b', r) && SameRound(b, b', r - 1);
        LaterOkSame(b, b', r);
      }
    }
    if b'.third.Some? && Filled(b'.third.value) {
      var r: nat :| ThirdFrom(b, r);
      assert r + 1 in b.rounds;
      assert r + 1 <= round;
      assert SameRound(b, b', r) && SameRound(b, b', r + 1);
      ThirdFromSame(b, b', r);
    }
  }

  lemma {:induction false} DeletedIsNotBuiltUpon(b: Bracket, round: nat, slot: nat)
    ensures !ThirdBuiltOn(DeleteDownstream(b, Slot(round, slot)), round)
  {
  }

  lemma {:induction false} ResultStepKeepsConsistent(seeded: seq<Pair>, b: Bracket, ref: Ref, m: KoMatch)
    requires Consistent(seeded, b) && Lookup(b, ref).Some? && MatchOk(m) && SameSides(Lookup(b, ref).value, m)
    requires m == Lookup(b, ref).value || !Official(Lookup(b, ref).value.status)
    ensures Consistent(seeded, Store(b, ref, m))
  {
    if ref.Third? {
      ThirdKeepsConsistent(seeded, b, m);
    } else if m == Lookup(b, ref).value {
      StoreSame(b, ref);
    } else {
      NotBuiltUpon(b, ref);
      ResultKeepsConsistent(seeded, b, ref.round, ref.slot, m);
    }
  }

  lemma {:induction false} StoreSame(b: Bracket, ref: Ref)
    requires Lookup(b, ref).Some?
    ensures Store(b, ref, Lookup(b, ref).value) == b
  {
    if ref.Slot? {
      assert RowsAt(b, ref.round)[ref.slot := Lookup(b, ref).value] == RowsAt(b, ref.round);
      assert b.rounds[ref.round := RowsAt(b, ref.round)] == b.rounds;
    }
  }

  /** While a match has no official result, nothing has been built on its round. */
  lemma {:induction false} NotBuiltUpon(b: Bracket, ref: Ref)
    requires ref.Slot? && LaterOk(b, ref.round + 1) && (forall r | r in b.rounds :: r >= 1)
    requires Lookup(b, ref).Some? && !Official(Lookup(b, ref).value.status)
    ensures !Started(RowsAt(b, ref.round + 1)) && !ThirdBuiltOn(b, ref.round)
  {
    assert ref.round in b.rounds;
  }

  lemma {:induction false} CorrectionKeepsConsistent(seeded: seq<Pair>, b: Bracket, ref: Ref, m: KoMatch)
    requires Consistent(seeded, b) && Lookup(b, ref).Some? && MatchOk(m) && SameSides(Lookup(b, ref).value, m)
    ensures Consistent(seeded, Store(DeleteDownstream(b, ref), ref, m))
  {
    if ref.Third? {
      ThirdKeepsConsistent(seeded, b, m);
    } else {
      assert ref.round in b.rounds;
      DeleteKeepsConsistent(seeded, b, ref.round, ref.slot);
      DeletedIsNotBuiltUpon(b, ref.round, ref.slot);
      assert SameRound(b, DeleteDownstream(b, ref), ref.round);
      ResultKeepsConsistent(seeded, DeleteDownstream(b, ref), ref.round, ref.slot, m);
    }
  }

  lemma {:induction false} MatchFound(b: Bracket, ref: Ref)
    requires RowsAllOk(b) && Lookup(b, ref).Some?
    ensures MatchOk(Lookup(b, ref).value) && (ref.Slot? ==> ref.round in b.rounds && RowsOk(RowsAt(b, ref.round)))
  {
    assert ref.Slot? ==> ref.round in b.rounds;
  }

  // ----- A walkover declared again -----

  /** One advancer changes, at the place of the slot. */
  lemma {:induction false} OneAdvancerChanges(rows: Rows, byes: Byes, slot: nat, m: KoMatch) returns (i: nat)
    requires AllWon(rows) && slot in rows && slot >= 1 && m.winner.Some?
    ensures i < |Advancers(rows, byes)| && Advancers(rows, byes)[i] == rows[slot].winner.value
    ensures AllWon(rows[slot := m]) && Advancers(rows[slot := m], byes) == Advancers(rows, byes)[i := m.winner.value]
  {
    var slots := SlotOrders(rows, byes);
    assert rows[slot := m].Keys == rows.Keys;
    assert slot in slots;
    i :| i < |slots| && slots[i] == slot;
    OneSlotChanges(rows, byes, slots, slot, m, i);
  }

  lemma {:induction false} OneSlotChanges(rows: Rows, byes: Byes, slots: seq<nat>, slot: nat, m: KoMatch, i: nat)
    requires AllWon(rows) && slot in rows && m.winner.Some? && NatSets.Ascending(slots)
    requires (forall s | s in slots :: s in rows.Keys + byes.Keys) && i < |slots| && slots[i] == slot
    ensures
      && AllWon(rows[slot := m]) && rows[slot := m].Keys == rows.Keys
      && AdvancersFrom(rows[slot := m], byes, slots) == AdvancersFrom(rows, byes, slots)[i := m.winner.value]
  {
    var ahead, ahead' := AdvancersFrom(rows, byes, slots), AdvancersFrom(rows[slot := m], byes, slots);
    forall k | 0 <= k < |slots| ensures ahead'[k] == ahead[i := m.winner.value][k] {
      assert k != i ==> slots[k] != slot;
      assert slots[k] in slots;
    }
  }

  /** Pairs before and after one of the paired entries was replaced. */
  ghost predicate OneReplaced(before: seq<Entry>, after: seq<Entry>, i: nat, gone: Entry, come: Entry) {
    i < |before| && before[i] == gone && after == before[i := come] && gone != come
  }

  lemma {:induction false} OnePairChanges(before: seq<Entry>, after: seq<Entry>, i: nat, gone: Entry, come: Entry)
    requires OneReplaced(before, after, i, gone, come)
    ensures
      var pairs, pairs' := SequentialPairs(before), SequentialPairs(after);
      && |pairs'| == |pairs| && i / 2 < |pairs|
      && (forall k | 0 <= k < |pairs| ::
            pairs'[k].order == pairs[k].order && (pairs'[k].entryB.Some? <==> pairs[k].entryB.Some?))
      && (forall k | 0 <= k < |pairs| && k != i / 2 :: pairs'[k] == pairs[k])
      && EntrantAt(pairs, i) == Some(gone) && EntrantAt(pairs', i) == Some(come)
  {
  }

  /** If the old entry has no place yet, the round fits the new pairing as well. */
  lemma {:induction false} FitsAfterReplacement(
      rows: Rows, byes: Byes, before: seq<Entry>, after: seq<Entry>, i: nat, gone: Entry, come: Entry)
    requires OneReplaced(before, after, i, gone, come) && RoundFits(rows, byes, SequentialPairs(before))
    requires !InMatch(rows, gone) && !InByes(byes, gone)
    ensures RoundFits(rows, byes, SequentialPairs(after))
  {
    var pairs, pairs' := SequentialPairs(before), SequentialPairs(after);
    OnePairChanges(before, after, i, gone, come);
    SequentialPairsProper(after);
    ByesOfAt(pairs, pairs[i / 2].order);
    assert pairs[i / 2].entryB.Some?;
    SameByes(pairs, pairs');
    assert Fits(rows, pairs[i / 2]);
    forall k | 0 <= k < |pairs'| && pairs'[k].entryB.Some? ensures Fits(rows, pairs'[k]) {
      assert Fits(rows, pairs[k]);
    }
    forall s | s in rows && Filled(rows[s]) ensures RealSlot(pairs', s) {
      var k :| 0 <= k < |pairs| && pairs[k].order == s && pairs[k].entryB.Some?;
      assert pairs'[k].order == s && pairs'[k].entryB.Some?;
    }
  }

  lemma {:induction false} SameByes(pairs: seq<Pair>, pairs': seq<Pair>)
    requires ProperPairs(pairs) && ProperPairs(pairs') && |pairs| == |pairs'|
    requires forall k | 0 <= k < |pairs| :: pairs[k].entryB.None? || pairs'[k].entryB.None? ==> pairs[k] == pairs'[k]
    ensures ByesOf(pairs) == ByesOf(pairs')
  {
    forall s: nat
      ensures s in ByesOf(pairs) <==> s in ByesOf(pairs')
      ensures s in ByesOf(pairs) ==> ByesOf(pairs)[s] == ByesOf(pairs')[s]
    {
      ByesOfAt(pairs, s);
      ByesOfAt(pairs', s);
      if s in ByesOf(pairs) {
        var k :| 0 <= k < |pairs| && pairs[k].order == s && pairs[k].entryB.None?;
        assert pairs'[k].order == s && pairs'[k].entryB.None?;
      }
      if s in ByesOf(pairs') {
        var k :| 0 <= k < |pairs'| && pairs'[k].order == s && pairs'[k].entryB.None?;
        assert pairs[k].order == s && pairs[k].entryB.None?;
      }
    }
  }

  /** If the old entry has a place, the round does not fit the new pairing. */
  lemma {:induction false} NoFitAfterReplacement(
      rows: Rows, byes: Byes, before: seq<Entry>, after: seq<Entry>, i: nat, gone: Entry, come: Entry)
    requires OneReplaced(before, after, i, gone, come) && RoundFits(rows, byes, SequentialPairs(before))
    requires NoRepeats(SequentialPairs(before)) && (InMatch(rows, gone) || InByes(byes, gone))
    ensures !RoundFits(rows, byes, SequentialPairs(after))
  {
    var pairs, pairs' := SequentialPairs(before), SequentialPairs(after);
    OnePairChanges(before, after, i, gone, come);
    var k := PlaceOf(rows, byes, pairs, gone);
    assert EntrantAt(pairs, i) == EntrantAt(pairs, if EntrantAt(pairs, 2 * k) == Some(gone) then 2 * k else 2 * k + 1);
    assert k == i / 2;
    SequentialPairsProper(after);
    ByesOfAt(pairs', pairs'[k].order);
    assert RoundFits(rows, byes, pairs') && pairs'[k].entryB.Some? ==> Fits(rows, pairs'[k]);
    assert pairs'[k] != pairs[k];
  }

  /** The pair that put the entry where it sits: hosted by a filled match, or a bye. */
  lemma {:induction false} PlaceOf(rows: Rows, byes: Byes, pairs: seq<Pair>, entry: Entry) returns (k: nat)
    requires RoundFits(rows, byes, pairs) && (InMatch(rows, entry) || InByes(byes, entry))
    ensures k < |pairs| && (EntrantAt(pairs, 2 * k) == Some(entry) || EntrantAt(pairs, 2 * k + 1) == Some(entry))
    ensures
      if pairs[k].entryB.Some? then Hosts(rows, pairs[k]) && Filled(rows[pairs[k].order])
      else pairs[k].order in byes && byes[pairs[k].order] == pairs[k].entryA
  {
    if InMatch(rows, entry) {
      k := PlaceInMatch(rows, byes, pairs, entry);
    } else {
      k := PlaceInByes(pairs, entry);
    }
  }

  lemma {:induction false} PlaceInMatch(rows: Rows, byes: Byes, pairs: seq<Pair>, entry: Entry) returns (k: nat)
    requires RoundFits(rows, byes, pairs) && InMatch(rows, entry)
    ensures k < |pairs| && pairs[k].entryB.Some? && Hosts(rows, pairs[k]) && Filled(rows[pairs[k].order])
    ensures EntrantAt(pairs, 2 * k) == Some(entry) || EntrantAt(pairs, 2 * k + 1) == Some(entry)
  {
    var s :| s in rows && Filled(rows[s]) && IsEntrant(rows[s], entry);
    assert RealSlot(pairs, s);
    k :| k < |pairs| && pairs[k].order == s && pairs[k].entryB.Some?;
    assert Fits(rows, pairs[k]);
  }

  lemma {:induction false} PlaceInByes(pairs: seq<Pair>, entry: Entry) returns (k: nat)
    requires ProperPairs(pairs) && InByes(ByesOf(pairs), entry)
    ensures k < |pairs| && pairs[k].entryB.None? && EntrantAt(pairs, 2 * k) == Some(entry)
    ensures pairs[k].order in ByesOf(pairs) && ByesOf(pairs)[pairs[k].order] == pairs[k].entryA
  {
    var s :| s in ByesOf(pairs) && ByesOf(pairs)[s] == entry;
    ByesOfAt(pairs, s);
    k :| k < |pairs| && pairs[k].order == s && pairs[k].entryB.None?;
  }

  /** The winner of one match of a completed round is replaced. */
  ghost predicate Redeclared(b: Bracket, b': Bracket, round: nat, slot: nat, come: Entry) {
    && slot in RowsAt(b, round) && slot >= 1
    && RowsAt(b, round)[slot].winner.Some? && RowsAt(b, round)[slot].winner != Some(come)
    && IsEntrant(RowsAt(b, round)[slot], come)
    && ChangesResult(b, b', round, slot, RowsAt(b, round)[slot].(winner := Some(come)))
  }

  /** A round that follows stays as paired exactly when the former winner has no place in it. */
  lemma {:induction false} NextRoundAfterRedeclare(b: Bracket, b': Bracket, round: nat, slot: nat, come: Entry)
    requires Redeclared(b, b', round, slot, come) && round >= 1
    requires Started(RowsAt(b, round + 1)) && LaterRound(b, round + 1)
    requires NoRepeats(SequentialPairs(Advancers(RowsAt(b, round), ByesAt(b, round))))
    ensures LaterOk(b', round + 1) <==> !Sits(b, round + 1, RowsAt(b, round)[slot].winner.value)
  {
    var rows, byes, m := RowsAt(b, round), ByesAt(b, round), RowsAt(b, round)[slot];
    var i := OneAdvancerChanges(rows, byes, slot, m.(winner := Some(come)));
    var before, after := Advancers(rows, byes), Advancers(RowsAt(b', round), byes);
    var next, skipped := RowsAt(b, round + 1), ByesAt(b, round + 1);
    assert SameRound(b, b', round + 1);
    assert OneReplaced(before, after, i, m.winner.value, come);
    StaysComplete(rows, slot, come);
    if Sits(b, round + 1, m.winner.value) {
      NoFitAfterReplacement(next, skipped, before, after, i, m.winner.value, come);
    } else {
      FitsAfterReplacement(next, skipped, before, after, i, m.winner.value, come);
    }
  }

  lemma {:induction false} StaysComplete(rows: Rows, slot: nat, come: Entry)
    requires Complete(rows) && slot in rows
    ensures Complete(rows[slot := rows[slot].(winner := Some(come))])
  {
  }

  // ----- The third-place match after a walkover declared again -----

  /** A third-place match that holds the losers of a round does not hold them once a winner of it is replaced. */
  lemma {:induction false} LosersChange(b: Bracket, b': Bracket, round: nat, slot: nat, come: Entry)
    requires Redeclared(b, b', round, slot, come) && ThirdFrom(b, round) && MatchOk(RowsAt(b, round)[slot])
    ensures !ThirdFrom(b', round)
  {
    var rows, rows' := RowsAt(b, round), RowsAt(b', round);
    var s, t :| SemifinalLosers(rows, ByesAt(b, round), b.third.value, s, t);
    assert rows'.Keys == rows.Keys;
    assert Loser(rows[slot]) != Loser(rows'[slot]);
    forall s', t' ensures !SemifinalLosers(rows', ByesAt(b', round), b.third.value, s', t') {
      OtherLosers(rows, rows', ByesAt(b, round), b.third.value, slot, s, t, s', t');
    }
  }

  lemma {:induction false} OtherLosers(
      rows: Rows, rows': Rows, byes: Byes, third: KoMatch, slot: nat, s: nat, t: nat, s': nat, t': nat)
    requires SemifinalLosers(rows, byes, third, s, t) && slot in rows && rows'.Keys == rows.Keys
    requires Loser(rows[slot]) != Loser(rows'[slot])
    ensures !SemifinalLosers(rows', byes, third, s', t')
  {
    if rows'.Keys == {s', t'} && s' < t' {
      SamePair(rows.Keys, s, t, s', t');
    }
  }

  lemma {:induction false} SamePair(slots: set<nat>, s: nat, t: nat, s': nat, t': nat)
    requires slots == {s, t} == {s', t'} && s < t && s' < t'
    ensures s == s' && t == t'
  {
    assert s in {s', t'} && t in {s', t'};
  }

  ghost predicate AllLater(b: Bracket) {
    forall k: nat :: LaterOk(b, k)
  }

  /** Two completed semifinals leave one final, so no later round can be one of semifinals too. */
  lemma {:induction false} SemifinalsAreOnce(b: Bracket, r: nat, q: nat)
    requires RowsAllOk(b) && AllLater(b) && ThirdFrom(b, r) && ThirdFrom(b, q)
    ensures r >= q
  {
    if r < q {
      FinalIsLast(b, r, q);
      TwoMatches(b, q);
    }
  }

  /** The round is one completed match. */
  ghost predicate FinalAt(b: Bracket, round: nat) {
    && Complete(RowsAt(b, round)) && RowsAt(b, round).Keys <= {1}
    && |Advancers(RowsAt(b, round), ByesAt(b, round))| <= 1
  }

  lemma {:induction false} FinalIsLast(b: Bracket, r: nat, q: nat)
    requires RowsAllOk(b) && AllLater(b) && ThirdFrom(b, r) && Complete(RowsAt(b, q)) && r < q
    ensures FinalAt(b, q)
  {
    FinalComplete(b, r, q);
    OneMatchLeft(b, r);
    NoRoundAfterFinal(b, r + 1, q);
  }

  lemma {:induction false} FinalComplete(b: Bracket, r: nat, q: nat)
    requires AllLater(b) && Complete(RowsAt(b, q)) && r < q
    ensures Complete(RowsAt(b, r + 1))
  {
    CompleteAt(b, q, r + 1);
  }

  lemma {:induction false} NoRoundAfterFinal(b: Bracket, round: nat, q: nat)
    requires AllLater(b) && round >= 1 && FinalAt(b, round) && Complete(RowsAt(b, q))
    ensures q <= round
  {
    if q > round {
      CompleteAt(b, q, round + 1);
      NothingAfterFinal(b, round);
    }
  }

  lemma {:induction false} TwoMatches(b: Bracket, q: nat)
    requires ThirdFrom(b, q)
    ensures exists s, t :: s < t && s in RowsAt(b, q) && t in RowsAt(b, q)
  {
    var s, t :| SemifinalLosers(RowsAt(b, q), ByesAt(b, q), b.third.value, s, t);
    assert s in RowsAt(b, q) && t in RowsAt(b, q);
  }

  lemma {:induction false} NothingAfterFinal(b: Bracket, round: nat)
    requires LaterOk(b, round + 1) && round >= 1 && Complete(RowsAt(b, round))
    requires |Advancers(RowsAt(b, round), ByesAt(b, round))| <= 1
    ensures !Complete(RowsAt(b, round + 1))
  {
    var pairs := SequentialPairs(Advancers(RowsAt(b, round), ByesAt(b, round)));
    assert forall slot: nat :: !RealSlot(pairs, slot);
    if Defined(RowsAt(b, round + 1)) {
      DefinedHasMatch(RowsAt(b, round + 1));
    }
  }

  lemma {:induction false} DefinedHasMatch(rows: Rows)
    requires Defined(rows)
    ensures Started(rows)
  {
    var s :| s in rows;
  }

  predicate CompletesPrevious(b: Bracket, round: nat) {
    round >= 2 && Complete(RowsAt(b, round)) ==> Complete(RowsAt(b, round - 1))
  }

  lemma {:induction false} PreviousComplete(b: Bracket, round: nat)
    requires LaterOk(b, round)
    ensures CompletesPrevious(b, round)
  {
    if round >= 2 && Complete(RowsAt(b, round)) {
      DefinedHasMatch(RowsAt(b, round));
    }
  }

  /** Completed rounds follow each other without a gap. */
  lemma {:induction false} CompleteAt(b: Bracket, q: nat, r: nat)
    requires AllLater(b) && Complete(RowsAt(b, q)) && 1 <= r <= q
    ensures Complete(RowsAt(b, r))
  {
    forall k: nat ensures CompletesPrevious(b, k) {
      assert LaterOk(b, k);
      PreviousComplete(b, k);
    }
    CompleteBefore(b, q, r);
  }

  lemma {:induction false} CompleteBefore(b: Bracket, q: nat, r: nat)
    requires (forall k: nat :: CompletesPrevious(b, k)) && Complete(RowsAt(b, q)) && 1 <= r <= q
    ensures Complete(RowsAt(b, r))
    decreases q
  {
    if r < q {
      assert CompletesPrevious(b, q);
      CompleteBefore(b, q - 1, r);
    }
  }

  lemma {:induction false} OneMatchLeft(b: Bracket, r: nat)
    requires RowsAllOk(b) && AllLater(b) && ThirdFrom(b, r) && Complete(RowsAt(b, r + 1))
    ensures FinalAt(b, r + 1)
  {
    assert r in b.rounds && RowsOk(RowsAt(b, r)) && LaterOk(b, r + 1);
    DefinedHasMatch(RowsAt(b, r + 1));
    TwoSlots(b, r);
    var pairs := SequentialPairs(Advancers(RowsAt(b, r), ByesAt(b, r)));
    assert |pairs| == 1 && pairs[0].order == 1 && pairs[0].entryB.Some?;
    OnePairRound(RowsAt(b, r + 1), ByesAt(b, r + 1), pairs);
  }

  lemma {:induction false} TwoSlots(b: Bracket, r: nat)
    requires ThirdFrom(b, r) && RowsOk(RowsAt(b, r))
    ensures |Advancers(RowsAt(b, r), ByesAt(b, r))| == 2
  {
    var s, t :| SemifinalLosers(RowsAt(b, r), ByesAt(b, r), b.third.value, s, t);
    var slots := SlotOrders(RowsAt(b, r), ByesAt(b, r));
    assert s in RowsAt(b, r) && t in RowsAt(b, r);
    forall k: nat ensures k in slots <==> k in [s, t] {
    }
    NatSets.AscendingUnique(slots, [s, t]);
  }

  lemma {:induction false} OnePairRound(rows: Rows, byes: Byes, pairs: seq<Pair>)
    requires |pairs| == 1 && pairs[0].order == 1 && pairs[0].entryB.Some? && Complete(rows) && RoundFits(rows, byes, pairs)
    ensures rows.Keys <= {1} && |Advancers(rows, byes)| <= 1
  {
    forall s | s in rows ensures s == 1 {
      assert RealSlot(pairs, s);
    }
    NoByes(pairs);
    var slots := SlotOrders(rows, byes);
    forall i | 0 <= i < |slots| ensures slots[i] == 1 {
      assert slots[i] in slots;
    }
  }

  lemma {:induction false} ThirdAfterRedeclare(b: Bracket, b': Bracket, round: nat, slot: nat, come: Entry)
    requires RowsAllOk(b) && AllLater(b) && ThirdOk(b) && Redeclared(b, b', round, slot, come)
    ensures ThirdOk(b') <==> !ThirdBuiltOn(b, round)
  {
    var m := RowsAt(b, round)[slot].(winner := Some(come));
    if !ThirdBuiltOn(b, round) {
      ResultKeepsThirdOk(b, b', round, slot, m);
    } else if r: nat :| ThirdFrom(b', r) {
      MatchFound(b, Slot(round, slot));
      LosersChange(b, b', round, slot, come);
      SameThirdElsewhere(b, b', round, slot, m, r);
      SemifinalsAreOnce(b, r, round);
      SemifinalsAreOnce(b, round, r);
    }
  }

  lemma {:induction false} SameThirdElsewhere(b: Bracket, b': Bracket, round: nat, slot: nat, m: KoMatch, r: nat)
    requires ChangesResult(b, b', round, slot, m) && ThirdFrom(b', r) && r != round
    ensures ThirdFrom(b, r)
  {
    assert SameRound(b, b', r);
    assert r + 1 != round ==> SameRound(b, b', r + 1);
    assert r + 1 == round ==> slot in RowsAt(b, round);
  }

  // ----- The exact guard -----

  lemma {:induction false} RedeclareElsewhere(b: Bracket, b': Bracket, round: nat, slot: nat, m: KoMatch, r: nat)
    requires LaterOk(b, r) && ChangesResult(b, b', round, slot, m) && r != round + 1
    ensures LaterOk(b', r)
  {
    if r == round {
      ChangedRoundLaterOk(b, b', round, slot, m);
    } else {
      assert SameRound(b, b', r);
      if r >= 1 {
        assert SameRound(b, b', r - 1);
        LaterOkSame(b, b', r);
      }
    }
  }

  lemma {:induction false} LaterAfterRedeclare(
      seeded: seq<Pair>, b: Bracket, b': Bracket, round: nat, slot: nat, come: Entry)
    requires Consistent(seeded, b) && Redeclared(b, b', round, slot, come)
    ensures LaterOk(b', round + 1) <==> !Sits(b, round + 1, RowsAt(b, round)[slot].winner.value)
  {
    assert SameRound(b, b', round + 1);
    if Started(RowsAt(b, round + 1)) {
      NextRoundPaired(seeded, b, round, slot);
      NextRoundAfterRedeclare(b, b', round, slot, come);
    }
  }

  lemma {:induction false} NextRoundPaired(seeded: seq<Pair>, b: Bracket, round: nat, slot: nat)
    requires Consistent(seeded, b) && slot in RowsAt(b, round) && Started(RowsAt(b, round + 1))
    ensures round >= 1 && LaterRound(b, round + 1)
    ensures NoRepeats(SequentialPairs(Advancers(RowsAt(b, round), ByesAt(b, round))))
  {
    MatchFound(b, Slot(round, slot));
    RoundNumber(b, round);
    PairedFromBefore(seeded, b, round, round + 1);
  }

  lemma {:induction false} RoundNumber(b: Bracket, round: nat)
    requires RowsAllOk(b) && round in b.rounds
    ensures round >= 1
  {
  }

  lemma {:induction false} PairedFromBefore(seeded: seq<Pair>, b: Bracket, before: nat, round: nat)
    requires Consistent(seeded, b) && before >= 1 && round == before + 1 && Started(RowsAt(b, round))
    ensures LaterRound(b, round)
    ensures NoRepeats(SequentialPairs(Advancers(RowsAt(b, before), ByesAt(b, before))))
  {
    assert LaterOk(b, round);
    var pairs := RoundPairing(seeded, b, round);
  }

  /**
   * A walkover declared again for the other entrant leaves a consistent bracket if and only if nothing has been
   * built on the result: the former winner has no place in the next round, and the third-place match does not hold
   * this round's losers.
   */
  lemma {:induction false} RedeclareKeepsConsistentExactly(
      seeded: seq<Pair>, b: Bracket, round: nat, slot: nat, come: Entry)
    requires Consistent(seeded, b) && slot in RowsAt(b, round) && RowsAt(b, round)[slot].status.Walkover?
    requires RowsAt(b, round)[slot].winner.Some? && RowsAt(b, round)[slot].winner != Some(come)
    requires IsEntrant(RowsAt(b, round)[slot], come)
    ensures
      Consistent(seeded, Store(b, Slot(round, slot), RowsAt(b, round)[slot].(winner := Some(come)))) <==>
      !BuiltUpon(b, Slot(round, slot))
  {
    var m := RowsAt(b, round)[slot].(winner := Some(come));
    var b' := Store(b, Slot(round, slot), m);
    StoredIsRedeclared(b, round, slot, come);
    LaterAfterRedeclare(seeded, b, b', round, slot, come);
    ThirdAfterRedeclare(b, b', round, slot, come);
    if LaterOk(b', round + 1) && ThirdOk(b') {
      RedeclaredIsConsistent(seeded, b, b', round, slot, come);
    }
  }

  lemma {:induction false} StoredIsRedeclared(b: Bracket, round: nat, slot: nat, come: Entry)
    requires RowsAllOk(b) && slot in RowsAt(b, round) && RowsAt(b, round)[slot].winner.Some?
    requires RowsAt(b, round)[slot].winner != Some(come) && IsEntrant(RowsAt(b, round)[slot], come)
    ensures Redeclared(b, Store(b, Slot(round, slot), RowsAt(b, round)[slot].(winner := Some(come))), round, slot, come)
  {
    MatchFound(b, Slot(round, slot));
  }

  lemma {:induction false} RedeclaredIsConsistent(
      seeded: seq<Pair>, b: Bracket, b': Bracket, round: nat, slot: nat, come: Entry)
    requires Consistent(seeded, b) && Redeclared(b, b', round, slot, come) && b'.rounds.Keys == b.rounds.Keys
    requires LaterOk(b', round + 1) && ThirdOk(b')
    ensures Consistent(seeded, b')
  {
    var m := RowsAt(b, round)[slot].(winner := Some(come));
    MatchFound(b, Slot(round, slot));
    ResultKeepsFirstOk(seeded, b, b', round, slot, m);
    RowsAllOkAfter(b, b', round);
    LaterOkElsewhere(b, b', round, slot, m);
  }

  lemma {:induction false} LaterOkElsewhere(b: Bracket, b': Bracket, round: nat, slot: nat, m: KoMatch)
    requires (forall r: nat :: LaterOk(b, r)) && ChangesResult(b, b', round, slot, m) && LaterOk(b', round + 1)
    ensures forall r: nat :: LaterOk(b', r)
  {
    forall r: nat | r != round + 1 ensures LaterOk(b', r) {
      assert LaterOk(b, r);
      RedeclareElsewhere(b, b', round, slot, m, r);
    }
  }

  /** A walkover without a winner on record has nothing built on it, so declaring one does no harm. */
  lemma {:induction false} RedeclareKeepsConsistent(seeded: seq<Pair>, b: Bracket, round: nat, slot: nat, come: Entry)
    requires Consistent(seeded, b) && slot in RowsAt(b, round) && RowsAt(b, round)[slot].status.Walkover?
    requires IsEntrant(RowsAt(b, round)[slot], come) && !BuiltUpon(b, Slot(round, slot))
    ensures Consistent(seeded, Store(b, Slot(round, slot), RowsAt(b, round)[slot].(winner := Some(come))))
  {
    var m := RowsAt(b, round)[slot];
    if m.winner == Some(come) {
      StoreSame(b, Slot(round, slot));
    } else if m.winner.Some? {
      RedeclareKeepsConsistentExactly(seeded, b, round, slot, come);
    } else {
      MatchFound(b, Slot(round, slot));
      assert !Complete(RowsAt(b, round));
      assert LaterOk(b, round + 1);
      ResultKeepsConsistent(seeded, b, round, slot, m.(winner := Some(come)));
    }
  }

  // ----- The guard where no match was left open -----

  lemma {:induction false} AdvancerAtPlace(ahead: seq<Entry>, i: nat)
    requires i < |ahead|
    ensures i / 2 < |SequentialPairs(ahead)| && EntrantAt(SequentialPairs(ahead), i) == Some(ahead[i])
  {
  }

  /** Everyone who went on has a place in a next round that is all filled. */
  lemma {:induction false} AdvancerSits(rows: Rows, byes: Byes, ahead: seq<Entry>, i: nat)
    requires Defined(rows) && RoundFits(rows, byes, SequentialPairs(ahead)) && i < |ahead|
    ensures InMatch(rows, ahead[i]) || InByes(byes, ahead[i])
  {
    var pairs := SequentialPairs(ahead);
    var k := i / 2;
    AdvancerAtPlace(ahead, i);
    if pairs[k].entryB.Some? {
      assert Fits(rows, pairs[k]);
      assert IsEntrant(rows[pairs[k].order], ahead[i]);
    } else {
      ByesOfAt(pairs, pairs[k].order);
      assert byes[pairs[k].order] == ahead[i];
    }
  }

  /** Once all of the next round is filled, every result of this one has been built on. */
  lemma {:induction false} DefinedRoundIsBuiltOn(seeded: seq<Pair>, b: Bracket, round: nat, slot: nat)
    requires Consistent(seeded, b) && slot in RowsAt(b, round) && Defined(RowsAt(b, round + 1))
    ensures RowsAt(b, round)[slot].winner.Some? && Sits(b, round + 1, RowsAt(b, round)[slot].winner.value)
  {
    DefinedHasMatch(RowsAt(b, round + 1));
    NextRoundPaired(seeded, b, round, slot);
    MatchFound(b, Slot(round, slot));
    var m := RowsAt(b, round)[slot];
    var i := OneAdvancerChanges(RowsAt(b, round), ByesAt(b, round), slot, m);
    AdvancerSits(RowsAt(b, round + 1), ByesAt(b, round + 1), Advancers(RowsAt(b, round), ByesAt(b, round)), i);
  }

  /** Where no round is half filled, the guard is that the next round has not started. */
  lemma {:induction false} RedeclareGuardOfFullRounds(
      seeded: seq<Pair>, b: Bracket, round: nat, slot: nat, come: Entry)
    requires Consistent(seeded, b) && slot in RowsAt(b, round) && RowsAt(b, round)[slot].status.Walkover?
    requires RowsAt(b, round)[slot].winner.Some? && RowsAt(b, round)[slot].winner != Some(come)
    requires IsEntrant(RowsAt(b, round)[slot], come)
    requires Started(RowsAt(b, round + 1)) ==> Defined(RowsAt(b, round + 1))
    requires ThirdBuiltOn(b, round) ==> Started(RowsAt(b, round + 1))
    ensures
      Consistent(seeded, Store(b, Slot(round, slot), RowsAt(b, round)[slot].(winner := Some(come)))) <==>
      !Started(RowsAt(b, round + 1))
  {
    RedeclareKeepsConsistentExactly(seeded, b, round, slot, come);
    if Started(RowsAt(b, round + 1)) {
      DefinedRoundIsBuiltOn(seeded, b, round, slot);
    }
  }
}
