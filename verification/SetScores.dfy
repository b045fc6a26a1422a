/** One set: the score-sheet acceptor against the sequences of rallies that can really be played. */
module SetScores {
  import opened Wrappers
  import opened Regulation

  /** The score-sheet check of one set; Refused is the source's exception. */
  function ValidSetWinner(c: Completion, period: int, scoreA: int, scoreB: int): Outcome<Side>
    requires c.Sets?
  {
    var winner := SetWinner(c, period, scoreA, scoreB);
    var high, low := Max(scoreA, scoreB), Min(scoreA, scoreB);
    if winner.None? || (high > TargetPoints(c, period) && high - low != c.minAdvantage) then
      Refused
    else
      Ok(winner.value)
  }

  /** A set is won with the target reached and the advantage held; only the last possible set has the shorter target. */
  lemma {:induction false} SetIsWonExactly(c: Completion, period: nat, scoreA: nat, scoreB: nat)
    requires ValidSets(c)
    ensures
      var target := if period < 2 * c.setsToWin - 1 then c.pointsToWinSet else c.pointsToWinDecidingSet;
      && (SetWinner(c, period, scoreA, scoreB) == Some(Home) <==> scoreA >= target && scoreA >= scoreB + c.minAdvantage)
      && (SetWinner(c, period, scoreA, scoreB) == Some(Away) <==> scoreB >= target && scoreB >= scoreA + c.minAdvantage)
  {
  }

  /** Rallies won by one side, each worth one point. */
  function Tally(rallies: seq<Side>, side: Side): nat {
    if rallies == [] then 0
    else Tally(rallies[..|rallies| - 1], side) + if rallies[|rallies| - 1] == side then 1 else 0
  }

  function WinnerAfter(c: Completion, period: int, rallies: seq<Side>): Option<Side>
    requires c.Sets?
  {
    SetWinner(c, period, Tally(rallies, Home), Tally(rallies, Away))
  }

  /** The set is decided by the last rally, in favour of `winner`, and not before. */
  ghost predicate DecidesSet(c: Completion, period: int, rallies: seq<Side>, winner: Side)
    requires c.Sets?
  {
    && WinnerAfter(c, period, rallies) == Some(winner)
    && forall k :: 0 <= k < |rallies| ==> WinnerAfter(c, period, rallies[..k]) == None
  }

  /** Some play from 0-0 ends the set at this score with this winner. */
  ghost predicate Playable(c: Completion, period: int, scoreA: int, scoreB: int, winner: Side)
    requires c.Sets?
  {
    exists rallies ::
      DecidesSet(c, period, rallies, winner) && Tally(rallies, Home) == scoreA && Tally(rallies, Away) == scoreB
  }

  /** With a one-point advantage a set cannot run past its target; otherwise it can. */
  predicate CanRunPastTarget(c: Completion, period: int, scoreA: int, scoreB: int)
    requires c.Sets?
  {
    c.minAdvantage >= 2 || Max(scoreA, scoreB) <= TargetPoints(c, period)
  }

  /** The loser's rallies first, then the winner's. */
  function BlockPlay(winner: Side, low: nat, high: nat): seq<Side> {
    seq(low + high, i requires 0 <= i < low + high => if i < low then Opponent(winner) else winner)
  }

  lemma {:induction false} BlockPlayTally(winner: Side, low: nat, high: nat, k: nat)
    requires k <= low + high
    ensures Tally(BlockPlay(winner, low, high)[..k], Opponent(winner)) == Min(k, low)
    ensures Tally(BlockPlay(winner, low, high)[..k], winner) == k - Min(k, low)
  {
    if k > 0 {
      BlockPlayTally(winner, low, high, k - 1);
      var r := BlockPlay(winner, low, high);
      assert r[..k][..k - 1] == r[..k - 1];
    }
  }

  /** The sides alternate up to a draw at `low`, then the winner scores `run` times. */
  function TightPlay(winner: Side, low: nat, run: nat): seq<Side> {
    seq(2 * low + run, i requires 0 <= i < 2 * low + run => if i < 2 * low && i % 2 == 0 then Opponent(winner) else winner)
  }

  lemma {:induction false} TightPlayTally(winner: Side, low: nat, run: nat, k: nat)
    requires k <= 2 * low + run
    ensures Tally(TightPlay(winner, low, run)[..k], Opponent(winner)) == Min((k + 1) / 2, low)
    ensures Tally(TightPlay(winner, low, run)[..k], winner) == k - Min((k + 1) / 2, low)
  {
    if k > 0 {
      TightPlayTally(winner, low, run, k - 1);
      var r := TightPlay(winner, low, run);
      assert r[..k][..k - 1] == r[..k - 1];
    }
  }

  /** Every accepted score up to the target is reached by a block play. */
  lemma {:induction false} BlockPlayDecides(c: Completion, period: int, scoreA: nat, scoreB: nat, winner: Side)
    requires ValidSets(c) && ValidSetWinner(c, period, scoreA, scoreB) == Ok(winner)
    requires Max(scoreA, scoreB) <= TargetPoints(c, period)
    ensures Playable(c, period, scoreA, scoreB, winner)
  {
    var high, low := Max(scoreA, scoreB), Min(scoreA, scoreB);
    var rallies := BlockPlay(winner, low, high);
    forall k | 0 <= k < |rallies| ensures WinnerAfter(c, period, rallies[..k]) == None {
      BlockPlayTally(winner, low, high, k);
    }
    assert rallies[..|rallies|] == rallies;
    BlockPlayTally(winner, low, high, |rallies|);
    assert DecidesSet(c, period, rallies, winner);
  }

  /** Every accepted score past the target is reached by a tight play. */
  lemma {:induction false} TightPlayDecides(c: Completion, period: int, scoreA: nat, scoreB: nat, winner: Side)
    requires ValidSets(c) && ValidSetWinner(c, period, scoreA, scoreB) == Ok(winner)
    requires Max(scoreA, scoreB) > TargetPoints(c, period) && c.minAdvantage >= 2
    ensures Playable(c, period, scoreA, scoreB, winner)
  {
    var low := Min(scoreA, scoreB);
    var run := c.minAdvantage;
    assert Max(scoreA, scoreB) == low + run;
    var rallies := TightPlay(winner, low, run);
    forall k | 0 <= k < |rallies| ensures WinnerAfter(c, period, rallies[..k]) == None {
      TightPlayTally(winner, low, run, k);
    }
    assert rallies[..|rallies|] == rallies;
    TightPlayTally(winner, low, run, |rallies|);
    assert DecidesSet(c, period, rallies, winner);
  }

  /** One more point cannot jump over an accepted score. */
  lemma {:induction false} PointIntoAccepted(c: Completion, period: int, scoreA: nat, scoreB: nat, side: Side)
    requires ValidSets(c) && SetWinner(c, period, scoreA, scoreB).None?
    requires c.minAdvantage >= 2 || Max(scoreA, scoreB) < TargetPoints(c, period)
    ensures
      var a, b := scoreA + (if side.Home? then 1 else 0), scoreB + if side.Away? then 1 else 0;
      var w := SetWinner(c, period, a, b);
      if w.Some? then
        w.value == side && ValidSetWinner(c, period, a, b) == Ok(side) && CanRunPastTarget(c, period, a, b)
      else
        c.minAdvantage >= 2 || Max(a, b) < TargetPoints(c, period)
  {
  }

  /** While a set is undecided under a one-point advantage, nobody has reached the target. */
  lemma {:induction false} UndecidedBelowTarget(c: Completion, period: int, rallies: seq<Side>)
    requires ValidSets(c)
    requires forall k :: 0 <= k <= |rallies| ==> WinnerAfter(c, period, rallies[..k]) == None
    ensures c.minAdvantage >= 2 || Max(Tally(rallies, Home), Tally(rallies, Away)) < TargetPoints(c, period)
  {
    if rallies != [] {
      var n := |rallies| - 1;
      var before := rallies[..n];
      forall k | 0 <= k <= |before| ensures WinnerAfter(c, period, before[..k]) == None {
        assert before[..k] == rallies[..k];
      }
      UndecidedBelowTarget(c, period, before);
      assert before[..n] == before && rallies[..n + 1] == rallies;
      assert WinnerAfter(c, period, rallies) == None && WinnerAfter(c, period, before) == None;
      PointIntoAccepted(c, period, Tally(before, Home), Tally(before, Away), rallies[n]);
    }
  }

  lemma {:induction false} PlayableIsAccepted(c: Completion, period: int, scoreA: int, scoreB: int, winner: Side)
    requires ValidSets(c) && Playable(c, period, scoreA, scoreB, winner)
    ensures ValidSetWinner(c, period, scoreA, scoreB) == Ok(winner) && CanRunPastTarget(c, period, scoreA, scoreB)
  {
    var rallies :|
      DecidesSet(c, period, rallies, winner) && Tally(rallies, Home) == scoreA && Tally(rallies, Away) == scoreB;
    var n := |rallies| - 1;
    assert rallies != [];
    var before := rallies[..n];
    forall k | 0 <= k <= n ensures WinnerAfter(c, period, before[..k]) == None {
      assert before[..k] == rallies[..k];
    }
    UndecidedBelowTarget(c, period, before);
    assert before[..n] == before;
    PointIntoAccepted(c, period, Tally(before, Home), Tally(before, Away), rallies[n]);
  }

  /**
   * The score sheet accepts exactly the set scores that can be played one rally at a
   * time, with one exception: under a one-point advantage it also accepts scores past
   * the target.
   */
  lemma {:induction false} SheetAcceptsExactlyPlayableSets(
      c: Completion, period: int, scoreA: nat, scoreB: nat, winner: Side)
    requires ValidSets(c)
    ensures Playable(c, period, scoreA, scoreB, winner) <==>
              ValidSetWinner(c, period, scoreA, scoreB) == Ok(winner) && CanRunPastTarget(c, period, scoreA, scoreB)
  {
    if Playable(c, period, scoreA, scoreB, winner) {
      PlayableIsAccepted(c, period, scoreA, scoreB, winner);
    }
    if ValidSetWinner(c, period, scoreA, scoreB) == Ok(winner) && CanRunPastTarget(c, period, scoreA, scoreB) {
      if Max(scoreA, scoreB) <= TargetPoints(c, period) {
        BlockPlayDecides(c, period, scoreA, scoreB, winner);
      } else {
        TightPlayDecides(c, period, scoreA, scoreB, winner);
      }
    }
  }

  /** The exception is real: 26-25 in a set to 25 with a one-point advantage. */
  lemma {:induction false} AcceptedButUnplayable(c: Completion)
    requires c == Sets(3, 25, 15, 1)
    ensures ValidSetWinner(c, 1, 26, 25) == Ok(Home)
    ensures !Playable(c, 1, 26, 25, Home)
  {
    SheetAcceptsExactlyPlayableSets(c, 1, 26, 25, Home);
  }
}
