/** A whole knockout: how long it runs, how many matches it takes, and who loses. */
module Knockout {
  import opened Wrappers
  import opened Entries
  import opened Seeding

  /** A played round: its pairs and, slot by slot, who goes on. */
  datatype Round = Round(pairs: seq<Pair>, advancers: seq<Entry>)

  predicate GoesOn(pair: Pair, entry: Entry) {
    pair.entryA == entry || pair.entryB == Some(entry)
  }

  predicate Played(round: Round) {
    && |round.advancers| == |round.pairs|
    && forall i | 0 <= i < |round.pairs| :: GoesOn(round.pairs[i], round.advancers[i])
  }

  /** Every round pairs off, in slot order, those who came through the round before. */
  ghost predicate KnockoutRun(rounds: seq<Round>) {
    && rounds != []
    && rounds[0].pairs != []
    && (forall i | 0 <= i < |rounds| :: Played(rounds[i]))
    && (forall i | 0 <= i < |rounds| - 1 ::
          |rounds[i].advancers| >= 2 && rounds[i + 1].pairs == SequentialPairs(rounds[i].advancers))
  }

  predicate HasChampion(rounds: seq<Round>) {
    rounds != [] && |rounds[|rounds| - 1].advancers| == 1
  }

  function Champion(rounds: seq<Round>): Entry
    requires HasChampion(rounds)
  {
    rounds[|rounds| - 1].advancers[0]
  }

  function MatchesIn(pairs: seq<Pair>): nat {
    if pairs == [] then 0
    else MatchesIn(pairs[..|pairs| - 1]) + if pairs[|pairs| - 1].entryB.Some? then 1 else 0
  }

  function Matches(rounds: seq<Round>): nat {
    if rounds == [] then 0 else MatchesIn(rounds[0].pairs) + Matches(rounds[1..])
  }

  predicate Loses(pair: Pair, winner: Entry, entry: Entry) {
    pair.entryB.Some? && GoesOn(pair, entry) && entry != winner
  }

  function LossesIn(pairs: seq<Pair>, advancers: seq<Entry>, entry: Entry): nat
    requires |pairs| == |advancers|
  {
    if pairs == [] then 0
    else
      var n := |pairs| - 1;
      LossesIn(pairs[..n], advancers[..n], entry) + if Loses(pairs[n], advancers[n], entry) then 1 else 0
  }

  function Losses(rounds: seq<Round>, entry: Entry): nat
    requires forall i | 0 <= i < |rounds| :: |rounds[i].pairs| == |rounds[i].advancers|
  {
    if rounds == [] then 0
    else LossesIn(rounds[0].pairs, rounds[0].advancers, entry) + Losses(rounds[1..], entry)
  }

  // ----- Length -----

  /** The champion is known after exactly as many rounds as the slots can be halved. */
  lemma {:induction false} RunLength(rounds: seq<Round>)
    requires KnockoutRun(rounds)
    ensures HasChampion(rounds) <==> |rounds| == 1 + CeilLog2(|rounds[0].pairs|)
    ensures |rounds| <= 1 + CeilLog2(|rounds[0].pairs|)
  {
    if |rounds| > 1 {
      RunLength(rounds[1..]);
      assert |rounds[1].pairs| == (|rounds[0].pairs| + 1) / 2;
    }
  }

  /** First-round slots left by the seeding of n entries take CeilLog2(n) - 1 more rounds. */
  lemma {:induction false} SeededSlots(entries: seq<Entry>, crossing: Crossing)
    requires |entries| >= 2
    ensures SeedPairs(entries, crossing) != []
    ensures 1 + CeilLog2(|SeedPairs(entries, crossing)|) == CeilLog2(|entries|)
  {
    BracketSizeIsLeastPowerOfTwo(|entries|);
    CeilLog2OfPow2(CeilLog2(|entries|) - 1);
  }

  // ----- Number of matches -----

  lemma {:induction false} MatchesOfSequential(entries: seq<Entry>)
    ensures MatchesIn(SequentialPairs(entries)) == |entries| / 2
  {
    var pairs := SequentialPairs(entries);
    if pairs != [] {
      var shorter := entries[..2 * (|pairs| - 1)];
      assert pairs[..|pairs| - 1] == SequentialPairs(shorter);
      MatchesOfSequential(shorter);
    }
  }

  lemma {:induction false} MatchesOfTail(pairs: seq<Pair>, byes: nat)
    requires byes <= |pairs|
    requires forall i | 0 <= i < |pairs| :: pairs[i].entryB.None? <==> i < byes
    ensures MatchesIn(pairs) == |pairs| - byes
  {
    if |pairs| > byes {
      MatchesOfTail(pairs[..|pairs| - 1], byes);
    } else if pairs != [] {
      MatchesOfTail(pairs[..|pairs| - 1], byes - 1);
    }
  }

  /** One match fewer than slots is what it takes to bring p slots down to one. */
  lemma {:induction false} RunMatches(rounds: seq<Round>)
    requires KnockoutRun(rounds) && HasChampion(rounds)
    ensures Matches(rounds) == MatchesIn(rounds[0].pairs) + |rounds[0].pairs| - 1
  {
    if |rounds| > 1 {
      RunMatches(rounds[1..]);
      MatchesOfSequential(rounds[0].advancers);
    } else {
      assert rounds[1..] == [];
    }
  }

  lemma {:induction false} SeededMatches(entries: seq<Entry>, crossing: Crossing)
    requires |entries| >= 2 && Distinct(entries)
    ensures
      var pairs := SeedPairs(entries, crossing);
      MatchesIn(pairs) + |pairs| == |entries|
  {
    if crossing.Sequential? {
      MatchesOfSequential(entries);
    } else {
      StandardSeeding(entries);
      BracketSizeIsLeastPowerOfTwo(|entries|);
      MatchesOfTail(StandardPairs(entries), BracketSize(|entries|) - |entries|);
    }
  }

  // ----- Losses -----

  /** In a round without repeats an entrant loses once if it does not go on, and otherwise never. */
  lemma {:induction false} LossesInRound(pairs: seq<Pair>, advancers: seq<Entry>, entry: Entry)
    requires NoRepeats(pairs) && Played(Round(pairs, advancers))
    ensures entry in advancers ==> Plays(pairs, entry)
    ensures LossesIn(pairs, advancers, entry) == if Plays(pairs, entry) && entry !in advancers then 1 else 0
  {
    if pairs != [] {
      var n := |pairs| - 1;
      var before, ahead := pairs[..n], advancers[..n];
      assert forall k | 0 <= k < 2 * n :: EntrantAt(before, k) == EntrantAt(pairs, k);
      LossesInRound(before, ahead, entry);
      assert advancers == ahead + [advancers[n]];
      assert Plays(pairs, entry) <==> Plays(before, entry) || GoesOn(pairs[n], entry) by {
        PlaysLastOrBefore(pairs, entry);
      }
      if GoesOn(pairs[n], entry) {
        LastNotBefore(pairs, entry);
      }
    }
  }

  lemma {:induction false} LastNotBefore(pairs: seq<Pair>, entry: Entry)
    requires pairs != [] && NoRepeats(pairs) && GoesOn(pairs[|pairs| - 1], entry)
    ensures !Plays(pairs[..|pairs| - 1], entry)
  {
    var n := |pairs| - 1;
    var l := if pairs[n].entryA == entry then 2 * n else 2 * n + 1;
    assert EntrantAt(pairs, l) == Some(entry);
    forall k | 0 <= k < 2 * n ensures EntrantAt(pairs[..n], k) != Some(entry) {
      assert EntrantAt(pairs[..n], k) == EntrantAt(pairs, k);
    }
  }

  lemma {:induction false} PlaysLastOrBefore(pairs: seq<Pair>, entry: Entry)
    requires pairs != []
    ensures
      var n := |pairs| - 1;
      Plays(pairs, entry) <==> Plays(pairs[..n], entry) || GoesOn(pairs[n], entry)
  {
    var n := |pairs| - 1;
    if Plays(pairs, entry) {
      var k: nat :| k < 2 * |pairs| && EntrantAt(pairs, k) == Some(entry);
      if k < 2 * n {
        assert EntrantAt(pairs[..n], k) == Some(entry);
      }
    }
    if Plays(pairs[..n], entry) {
      var k: nat :| k < 2 * n && EntrantAt(pairs[..n], k) == Some(entry);
      assert EntrantAt(pairs, k) == Some(entry);
    }
    if GoesOn(pairs[n], entry) {
      assert EntrantAt(pairs, 2 * n) == Some(entry) || EntrantAt(pairs, 2 * n + 1) == Some(entry);
    }
  }

  lemma {:induction false} AdvancersDistinct(pairs: seq<Pair>, advancers: seq<Entry>)
    requires NoRepeats(pairs) && Played(Round(pairs, advancers))
    ensures Distinct(advancers)
  {
    forall i, j | 0 <= i < j < |advancers| ensures advancers[i] != advancers[j] {
      var k := if advancers[i] == pairs[i].entryA then 2 * i else 2 * i + 1;
      var l := if advancers[j] == pairs[j].entryA then 2 * j else 2 * j + 1;
      assert EntrantAt(pairs, k) == Some(advancers[i]) && EntrantAt(pairs, l) == Some(advancers[j]);
    }
  }

  /** Only the champion goes unbeaten; every other entrant of the first round loses once. */
  lemma {:induction false} RunLosses(rounds: seq<Round>, entry: Entry)
    requires KnockoutRun(rounds) && HasChampion(rounds) && NoRepeats(rounds[0].pairs)
    ensures Plays(rounds[0].pairs, Champion(rounds))
    ensures Losses(rounds, entry) == if Plays(rounds[0].pairs, entry) && entry != Champion(rounds) then 1 else 0
  {
    var first := rounds[0];
    LossesInRound(first.pairs, first.advancers, entry);
    LossesInRound(first.pairs, first.advancers, Champion(rounds));
    if |rounds| > 1 {
      AdvancersDistinct(first.pairs, first.advancers);
      SequentialPairsUseEachOnce(first.advancers);
      RunLosses(rounds[1..], entry);
      assert Champion(rounds[1..]) == Champion(rounds);
      assert Covers(rounds[1].pairs, first.advancers);
    } else {
      assert rounds[1..] == [];
      assert first.advancers == [Champion(rounds)];
    }
  }

  // ----- The theorem -----

  /**
   * From n >= 2 distinct entries, under either crossing: the champion is known exactly
   * after ceil(log2 n) rounds, those rounds have n - 1 matches, the champion never loses
   * and every other entry loses exactly once.
   */
  lemma {:induction false} KnockoutFromSeeding(entries: seq<Entry>, crossing: Crossing, rounds: seq<Round>)
    requires |entries| >= 2 && Distinct(entries)
    requires KnockoutRun(rounds) && rounds[0].pairs == SeedPairs(entries, crossing)
    ensures |rounds| <= CeilLog2(|entries|)
    ensures HasChampion(rounds) <==> |rounds| == CeilLog2(|entries|)
    ensures HasChampion(rounds) ==> Matches(rounds) == |entries| - 1
    ensures HasChampion(rounds) ==>
      && Champion(rounds) in entries
      && forall e | e in entries :: Losses(rounds, e) == if e == Champion(rounds) then 0 else 1
  {
    RunLength(rounds);
    SeededSlots(entries, crossing);
    if HasChampion(rounds) {
      RunMatches(rounds);
      SeededMatches(entries, crossing);
      if crossing.Sequential? {
        SequentialPairsUseEachOnce(entries);
      } else {
        StandardUsesEachOnce(entries);
      }
      RunLosses(rounds, Champion(rounds));
      forall e | e in entries ensures Losses(rounds, e) == if e == Champion(rounds) then 0 else 1 {
        RunLosses(rounds, e);
      }
    }
  }

  /** With the standard crossing every round after the first has an even number of slots. */
  lemma {:induction false} NoLaterByes(entries: seq<Entry>, rounds: seq<Round>, i: nat)
    requires |entries| >= 2 && 1 <= i < |rounds|
    requires KnockoutRun(rounds) && rounds[0].pairs == SeedPairs(entries, Standard)
    ensures CeilLog2(|entries|) > i && |rounds[i].pairs| == Pow2(CeilLog2(|entries|) - 1 - i)
    ensures forall j | 0 <= j < |rounds[i].pairs| :: rounds[i].pairs[j].entryB.Some?
  {
    BracketSizeIsLeastPowerOfTwo(|entries|);
    if i > 1 {
      NoLaterByes(entries, rounds, i - 1);
    }
    assert |rounds[i - 1].pairs| == Pow2(CeilLog2(|entries|) - i) && |rounds[i - 1].advancers| >= 2;
    assert rounds[i].pairs == SequentialPairs(rounds[i - 1].advancers);
  }

  // ----- Playing it out -----

  function ResultsOf(pairs: seq<Pair>, round: nat, homeWins: (nat, nat) -> bool): (advancers: seq<Entry>)
    ensures Played(Round(pairs, advancers))
  {
    if pairs == [] then []
    else
      var n := |pairs| - 1;
      var last := pairs[n];
      ResultsOf(pairs[..n], round, homeWins) +
      [if last.entryB.None? || homeWins(round, n) then last.entryA else last.entryB.value]
  }

  /** Plays all rounds; `homeWins(r, i)` is the outcome of match i of round r. */
  function PlayOut(pairs: seq<Pair>, round: nat, homeWins: (nat, nat) -> bool): (rounds: seq<Round>)
    requires pairs != []
    ensures KnockoutRun(rounds) && HasChampion(rounds) && rounds[0].pairs == pairs
    decreases |pairs|
  {
    var advancers := ResultsOf(pairs, round, homeWins);
    var first := Round(pairs, advancers);
    if |pairs| == 1 then [first] else [first] + PlayOut(SequentialPairs(advancers), round + 1, homeWins)
  }
}
