/** The knockout rows as one recomputation updates them in place. */
module BracketStore {
  import opened Wrappers
  import opened Entries
  import opened NatSets
  import opened Seeding
  import opened KnockoutPhase

  lemma {:induction false} UnresolvedLabel(placed: map<Label, Entry>, rows: Rows, slots: seq<nat>, i: nat)
    requires (forall s | s in slots :: s in rows) && i < |slots| && PublishedPair(placed, slots[i], rows[slots[i]]).None?
    ensures PublishedPairsFrom(placed, rows, slots).None?
    decreases |slots|
  {
    var n := |slots| - 1;
    if i < n {
      UnresolvedLabel(placed, rows, slots[..n], i);
    }
  }

  class Phase {
    const setup: Setup
    var source: Source
    var rounds: map<nat, Rows>
    var third: Option<KoMatch>
    var byes: map<nat, Byes>
    var status: TournamentStatus

    /** The stored rows as a value. */
    function Stored(): Bracket
      reads this
    {
      Bracket.Bracket(source, rounds, third, byes)
    }

    constructor (setup: Setup, published: Bracket, status: TournamentStatus)
      ensures this.setup == setup && Stored() == published && this.status == status
    {
      this.setup, this.status := setup, status;
      source, rounds, third, byes := published.source, published.rounds, published.third, published.byes;
    }

    static method FillRoundLoop(rows: Rows, pairs: seq<Pair>, date: Date) returns (after: Rows)
      ensures after == FillRound(rows, pairs, date)
    {
      after := rows;
      for i := 0 to |pairs|
        invariant after == FillRound(rows, pairs[..i], date)
      {
        assert pairs[..i + 1][..i] == pairs[..i];
        var pair := pairs[i];
        if pair.entryB.Some? {
          after := after[pair.order := FillMatch(MatchAt(after, pair.order), pair, date)];
        }
      }
      assert pairs[..|pairs|] == pairs;
    }

    static method ByesLoop(pairs: seq<Pair>) returns (result: Byes)
      ensures result == ByesOf(pairs)
    {
      result := map[];
      for i := 0 to |pairs|
        invariant result == ByesOf(pairs[..i])
      {
        assert pairs[..i + 1][..i] == pairs[..i];
        if pairs[i].entryB.None? {
          result := result[pairs[i].order := pairs[i].entryA];
        }
      }
      assert pairs[..|pairs|] == pairs;
    }

    /** Walks the slots in order; without a winner in every match there is nothing to return. */
    static method AdvancersLoop(rows: Rows, byes: Byes) returns (winners: Option<seq<Entry>>)
      ensures winners.Some? <==> AllWon(rows)
      ensures winners.Some? ==> winners.value == Advancers(rows, byes)
    {
      if !AllWon(rows) {
        return None;
      }
      var slots := SlotOrders(rows, byes);
      var ahead := AdvancersAlong(rows, byes, slots);
      return Some(ahead);
    }

    static method AdvancersAlong(rows: Rows, byes: Byes, slots: seq<nat>) returns (ahead: seq<Entry>)
      requires AllWon(rows) && forall s | s in slots :: s in rows.Keys + byes.Keys
      ensures ahead == AdvancersFrom(rows, byes, slots)
    {
      ahead := [];
      for i := 0 to |slots|
        invariant forall s | s in slots[..i] :: s in slots
        invariant ahead == AdvancersFrom(rows, byes, slots[..i])
      {
        assert slots[..i + 1][..i] == slots[..i] && slots[i] in slots;
        ahead := ahead + [AdvancerAt(rows, byes, slots[i])];
      }
      assert slots[..|slots|] == slots;
    }

    static method PublishedLoop(source: Source, rows: Rows) returns (pairs: Option<seq<Pair>>)
      ensures pairs == PublishedPairs(source, rows)
    {
      if !source.Classified? || rows == map[] {
        return None;
      }
      pairs := PublishedAlong(source.placed, rows, Sorted(rows.Keys));
      if pairs.Some? && !NoRepeats(pairs.value) {
        return None;
      }
    }

    /** Resolves the labels slot by slot; the first that names nobody ends it. */
    static method PublishedAlong(placed: map<Label, Entry>, rows: Rows, slots: seq<nat>) returns (pairs: Option<seq<Pair>>)
      requires forall s | s in slots :: s in rows
      ensures pairs == PublishedPairsFrom(placed, rows, slots)
    {
      var found: seq<Pair> := [];
      for i := 0 to |slots|
        invariant forall s | s in slots[..i] :: s in slots
        invariant PublishedPairsFrom(placed, rows, slots[..i]) == Some(found)
      {
        assert slots[..i + 1][..i] == slots[..i] && slots[i] in slots;
        var pair := PublishedPair(placed, slots[i], rows[slots[i]]);
        if pair.None? {
          UnresolvedLabel(placed, rows, slots, i);
          return None;
        }
        found := found + [pair.value];
      }
      assert slots[..|slots|] == slots;
      return Some(found);
    }

    /** The publication if it resolves, and else the seeding. */
    method ChooseFirstPairs() returns (pairs: seq<Pair>)
      requires !source.Pending?
      ensures pairs == FirstPairs(setup, Stored())
    {
      var published := PublishedLoop(source, RowsAt(Stored(), 1));
      if published.Some? {
        return published.value;
      }
      pairs := SeedPairsLoop(source.slots, setup.crossing);
    }

    method CreateRound(round: nat, pairs: seq<Pair>, date: Date)
      modifies this
      ensures Stored() == WithRound(old(Stored()), round, pairs, date)
      ensures status == Ongoing
    {
      var filled := FillRoundLoop(RowsAt(Stored(), round), pairs, date);
      var skipped := ByesLoop(pairs);
      rounds := rounds[round := filled];
      byes := byes[round := skipped];
      status := Ongoing;
    }

    method ProgressKnockout(date: Date)
      modifies this
      ensures Stored() == Progress(setup, old(Stored()), date)
      ensures status == StatusAfter(setup, old(Stored()), old(status))
    {
      var defined := DefinedRounds(Stored());
      if defined == {} {
        if !source.Pending? {
          var pairs := ChooseFirstPairs();
          if HasMatch(pairs) {
            CreateRound(1, pairs, date);
          }
        }
      } else {
        AdvanceFrom(MaxOf(defined), date);
      }
    }

    /** The losers of two matches that leave two entries meet for third place, once, while the match is scheduled. */
    method PlaceThird(last: nat, left: nat, date: Date) returns (placing: Option<KoMatch>)
      requires AllWon(RowsAt(Stored(), last))
      requires left == |Advancers(RowsAt(Stored(), last), ByesAt(Stored(), last))|
      ensures placing == ThirdPlace(setup, Stored(), last, date)
    {
      var current := RowsAt(Stored(), last);
      var slots := Sorted(current.Keys);
      if !setup.thirdPlaceMatch || left != 2 || |slots| != 2 {
        return third;
      }
      assert slots[0] in slots && slots[1] in slots;
      var first, second := Loser(current[slots[0]]), Loser(current[slots[1]]);
      if first.None? || second.None? {
        return third;
      }
      if third.None? {
        return Some(NewMatch(Pair(0, first.value, second), date));
      }
      if third.value.status.Scheduled? && !Filled(third.value) {
        return Some(third.value.(entryA := first, entryB := second, labelA := None, labelB := None));
      }
      return third;
    }

    method AdvanceFrom(last: nat, date: Date)
      requires DefinedRounds(Stored()) != {} && last == MaxOf(DefinedRounds(Stored()))
      modifies this
      ensures Stored() == Advance(setup, old(Stored()), last, date)
      ensures status == StatusAfter(setup, old(Stored()), old(status))
    {
      var current := RowsAt(Stored(), last);
      var winners := AdvancersLoop(current, ByesAt(Stored(), last));
      if AllOfficial(current) && winners.Some? {
        if |winners.value| > 1 {
          var placing := PlaceThird(last, |winners.value|, date);
          var pairs := SequentialPairsLoop(winners.value);
          CreateRound(last + 1, pairs, date);
          third := placing;
        } else if !ThirdPending(Stored()) {
          status := Closed;
        }
      }
    }
  }
}
