/** The score sheet against live play: the same results are possible, and they mean the same. */
module ScoreSheet {
  import opened Wrappers
  import opened Regulation
  import opened LiveMatch
  import opened SetScores
  import opened MatchHistory
  import opened MatchResults

  /** No event of the run is worth more than one point. */
  ghost predicate OnePointRun(steps: seq<Step>) {
    forall i | 0 <= i < |steps| && steps[i].RegisterStep? :: EventPoints(steps[i].request) <= 1
  }

  ghost predicate OnePointHistory(history: seq<Kept>) {
    forall i | 0 <= i < |history| && history[i].effect.Points? :: history[i].effect.points == 1
  }

  ghost predicate NoneRunsPastTarget(c: Completion, sheet: seq<PeriodScore>)
    requires c.Sets?
  {
    forall i | 0 <= i < |sheet| :: CanRunPastTarget(c, i + 1, sheet[i].scoreA, sheet[i].scoreB)
  }

  // ----- Live play only produces sheets the service accepts -----

  /** The open set: at 0-0 or further on, not won, and below the target under a one-point advantage. */
  predicate OpenPartial(c: Completion, s: Snapshot, period: nat)
    requires c.Sets?
  {
    && s.currentPeriod == period
    && s.periodA >= 0 && s.periodB >= 0
    && SetWinner(c, period, s.periodA, s.periodB).None?
    && (c.minAdvantage >= 2 || Max(s.periodA, s.periodB) < TargetPoints(c, period))
  }

  /** The stored results read as a sheet that scores what the score columns say. */
  ghost predicate ReadsAsSheet(c: Completion, st: ScoreState, sheet: seq<PeriodScore>)
    requires c.Sets?
  {
    && st.results == SheetResults(sheet)
    && SheetScore(c, sheet) == Ok((st.score.scoreA, st.score.scoreB))
    && NoneRunsPastTarget(c, sheet)
    && if Decided(c, st.score) then st.score.currentPeriod == |sheet| else OpenPartial(c, st.score, |sheet| + 1)
  }

  lemma {:induction false} ClosingPointKeepsSheet(
      c: Completion, st: ScoreState, sheet: seq<PeriodScore>, last: PeriodScore, winner: Side)
    requires ValidSets(c) && ReadsAsSheet(c, st, sheet) && !Decided(c, st.score)
    requires ValidSetWinner(c, |sheet| + 1, last.scoreA, last.scoreB) == Ok(winner)
    requires CanRunPastTarget(c, |sheet| + 1, last.scoreA, last.scoreB)
    ensures ReadsAsSheet(c, SetPoint(c, st, last.scoreA, last.scoreB), sheet + [last])
  {
  }

  lemma {:induction false} PointKeepsSheet(
      rules: Rules, st: ScoreState, sheet: seq<PeriodScore>, side: Side)
    returns (sheet': seq<PeriodScore>)
    requires Valid(rules) && rules.completion.Sets?
    requires ReadsAsSheet(rules.completion, st, sheet) && !Decided(rules.completion, st.score)
    ensures ReadsAsSheet(rules.completion, AddPoints(rules, st, side, 1), sheet')
  {
    var c, s := rules.completion, st.score;
    var nextA, nextB := s.periodA + (if side.Home? then 1 else 0), s.periodB + if side.Away? then 1 else 0;
    assert AddPoints(rules, st, side, 1) == SetPoint(c, st, nextA, nextB);
    PointIntoAccepted(c, s.currentPeriod, s.periodA, s.periodB, side);
    if SetWinner(c, s.currentPeriod, nextA, nextB).Some? {
      sheet' := sheet + [PeriodScore(nextA, nextB)];
      ClosingPointKeepsSheet(c, st, sheet, PeriodScore(nextA, nextB), side);
    } else {
      sheet' := sheet;
      OpenPointKeepsSheet(c, st, sheet, nextA, nextB);
    }
  }

  lemma {:induction false} OpenPointKeepsSheet(
      c: Completion, st: ScoreState, sheet: seq<PeriodScore>, nextA: int, nextB: int)
    requires c.Sets? && ReadsAsSheet(c, st, sheet) && !Decided(c, st.score)
    requires nextA >= st.score.periodA && nextB >= st.score.periodB
    requires SetWinner(c, |sheet| + 1, nextA, nextB).None?
    requires c.minAdvantage >= 2 || Max(nextA, nextB) < TargetPoints(c, |sheet| + 1)
    ensures ReadsAsSheet(c, SetPoint(c, st, nextA, nextB), sheet)
  {
  }

  lemma {:induction false} LegalHistoryReadsAsSheet(rules: Rules, history: seq<Kept>) returns (sheet: seq<PeriodScore>)
    requires Valid(rules) && rules.completion.Sets? && Legal(rules, history) && OnePointHistory(history)
    ensures ReadsAsSheet(rules.completion, Replay(rules, history), sheet)
  {
    if history == [] {
      sheet := [];
    } else {
      var n := |history| - 1;
      sheet := LegalHistoryReadsAsSheet(rules, history[..n]);
      if history[n].effect.Points? {
        assert history[n].effect.points == 1;
        assert Replay(rules, history) == AddPoints(rules, Replay(rules, history[..n]), history[n].effect.side, 1);
        sheet := PointKeepsSheet(rules, Replay(rules, history[..n]), sheet, history[n].effect.side);
      }
    }
  }

  lemma {:induction false} RewindOnePoint(history: seq<Kept>)
    requires OnePointHistory(history)
    ensures OnePointHistory(Rewind(history))
  {
    if history != [] && history[|history| - 1].effect.NextPeriod? {
      RewindOnePoint(history[..|history| - 1]);
    }
  }

  lemma {:induction false} SurvivingOnePoint(rules: Rules, m: Match, steps: seq<Step>)
    requires OnePointRun(steps)
    ensures OnePointHistory(Surviving(rules, m, steps))
  {
    if steps != [] {
      SurvivingOnePoint(rules, m, steps[..|steps| - 1]);
      RewindOnePoint(Surviving(rules, m, steps[..|steps| - 1]));
    }
  }

  // ----- Every accepted sheet can be played -----

  /** One-point rallies, applied to the score state. */
  function PlayRallies(rules: Rules, st: ScoreState, rallies: seq<Side>): ScoreState {
    if rallies == [] then st
    else AddPoints(rules, PlayRallies(rules, st, rallies[..|rallies| - 1]), rallies[|rallies| - 1], 1)
  }

  /** The match is undecided before each of the rallies. */
  ghost predicate UndecidedThroughout(rules: Rules, st: ScoreState, rallies: seq<Side>)
    requires rules.completion.Sets?
  {
    forall k | 0 <= k < |rallies| :: !Decided(rules.completion, PlayRallies(rules, st, rallies[..k]).score)
  }

  lemma {:induction false} PlayAppends(rules: Rules, st: ScoreState, first: seq<Side>, second: seq<Side>)
    ensures PlayRallies(rules, st, first + second) == PlayRallies(rules, PlayRallies(rules, st, first), second)
  {
    if second == [] {
      assert first + second == first;
    } else {
      var n := |second| - 1;
      PlayAppends(rules, st, first, second[..n]);
      assert (first + second)[..|first + second| - 1] == first + second[..n];
    }
  }

  /** Inside a set only the open partial moves. */
  lemma {:induction false} PlayInsideSet(rules: Rules, st: ScoreState, rallies: seq<Side>, k: nat)
    requires rules.completion.Sets? && k <= |rallies|
    requires st.score.periodA == 0 && st.score.periodB == 0
    requires forall i | 0 <= i <= k :: WinnerAfter(rules.completion, st.score.currentPeriod, rallies[..i]).None?
    ensures PlayRallies(rules, st, rallies[..k]) ==
            st.(score := st.score.(periodA := Tally(rallies[..k], Home), periodB := Tally(rallies[..k], Away)))
  {
    if k > 0 {
      PlayInsideSet(rules, st, rallies, k - 1);
      assert rallies[..k][..k - 1] == rallies[..k - 1];
    }
  }

  lemma {:induction false} PlaySet(rules: Rules, st: ScoreState, rallies: seq<Side>, winner: Side)
    requires Valid(rules) && rules.completion.Sets?
    requires st.score.periodA == 0 && st.score.periodB == 0 && !Decided(rules.completion, st.score)
    requires DecidesSet(rules.completion, st.score.currentPeriod, rallies, winner)
    ensures PlayRallies(rules, st, rallies) ==
            SetPoint(rules.completion, st, Tally(rallies, Home), Tally(rallies, Away))
    ensures UndecidedThroughout(rules, st, rallies)
  {
    assert rallies != [];
    PlaySetUndecided(rules, st, rallies, winner);
    PlayInsideSet(rules, st, rallies, |rallies| - 1);
    ClosingRally(rules, st, rallies);
  }

  lemma {:induction false} ClosingRally(rules: Rules, st: ScoreState, rallies: seq<Side>)
    requires rules.completion.Sets? && rallies != []
    requires
      var before := rallies[..|rallies| - 1];
      PlayRallies(rules, st, before) ==
      st.(score := st.score.(periodA := Tally(before, Home), periodB := Tally(before, Away)))
    ensures PlayRallies(rules, st, rallies) ==
            SetPoint(rules.completion, st, Tally(rallies, Home), Tally(rallies, Away))
  {
    var n := |rallies| - 1;
    RallyCounts(rules, st, PlayRallies(rules, st, rallies[..n]), rallies[n]);
  }

  /** A rally that follows others of the set counts from the partials they left. */
  lemma {:induction false} RallyCounts(rules: Rules, st: ScoreState, before: ScoreState, side: Side)
    requires rules.completion.Sets?
    requires before == st.(score := st.score.(periodA := before.score.periodA, periodB := before.score.periodB))
    ensures
      var nextA := before.score.periodA + if side.Home? then 1 else 0;
      var nextB := before.score.periodB + if side.Away? then 1 else 0;
      AddPoints(rules, before, side, 1) == SetPoint(rules.completion, st, nextA, nextB)
  {
    var nextA := before.score.periodA + if side.Home? then 1 else 0;
    var nextB := before.score.periodB + if side.Away? then 1 else 0;
    SetPointIgnoresPartials(rules.completion, st, before, nextA, nextB);
  }

  lemma {:induction false} SetPointIgnoresPartials(
      c: Completion, st: ScoreState, st': ScoreState, nextA: int, nextB: int)
    requires c.Sets?
    requires st' == st.(score := st.score.(periodA := st'.score.periodA, periodB := st'.score.periodB))
    ensures SetPoint(c, st', nextA, nextB) == SetPoint(c, st, nextA, nextB)
  {
  }

  lemma {:induction false} PlaySetUndecided(rules: Rules, st: ScoreState, rallies: seq<Side>, winner: Side)
    requires Valid(rules) && rules.completion.Sets?
    requires st.score.periodA == 0 && st.score.periodB == 0 && !Decided(rules.completion, st.score)
    requires DecidesSet(rules.completion, st.score.currentPeriod, rallies, winner)
    ensures UndecidedThroughout(rules, st, rallies)
  {
    forall k | 0 <= k < |rallies| ensures !Decided(rules.completion, PlayRallies(rules, st, rallies[..k]).score) {
      PlayInsideSet(rules, st, rallies, k);
    }
  }

  /** The state live play has reached once exactly this sheet has been played. */
  ghost predicate SheetPlayed(c: Completion, st: ScoreState, sheet: seq<PeriodScore>)
    requires c.Sets?
  {
    && st.results == SheetResults(sheet)
    && SheetScore(c, sheet) == Ok((st.score.scoreA, st.score.scoreB))
    && (if Decided(c, st.score) then
          st.score.currentPeriod == |sheet|
        else
          st.score.currentPeriod == |sheet| + 1 && st.score.periodA == 0 && st.score.periodB == 0)
  }

  lemma {:induction false} ClosingPointPlaysSheet(
      c: Completion, st: ScoreState, sheet: seq<PeriodScore>, last: PeriodScore, score: (int, int), winner: Side)
    requires ValidSets(c) && SheetPlayed(c, st, sheet) && SheetScore(c, sheet) == Ok(score)
    requires score.0 < c.setsToWin && score.1 < c.setsToWin
    requires ValidSetWinner(c, |sheet| + 1, last.scoreA, last.scoreB) == Ok(winner)
    ensures SheetPlayed(c, SetPoint(c, st, last.scoreA, last.scoreB), sheet + [last])
  {
  }

  /** After the sheet, one more set. */
  lemma {:induction false} PlayOneMoreSet(
      rules: Rules, st: ScoreState, sheet: seq<PeriodScore>, last: PeriodScore, score: (int, int), winner: Side)
    returns (play: seq<Side>)
    requires Valid(rules) && rules.completion.Sets? && last.scoreA >= 0 && last.scoreB >= 0
    requires SheetPlayed(rules.completion, st, sheet) && SheetScore(rules.completion, sheet) == Ok(score)
    requires score.0 < rules.completion.setsToWin && score.1 < rules.completion.setsToWin
    requires ValidSetWinner(rules.completion, |sheet| + 1, last.scoreA, last.scoreB) == Ok(winner)
    requires CanRunPastTarget(rules.completion, |sheet| + 1, last.scoreA, last.scoreB)
    ensures UndecidedThroughout(rules, st, play)
    ensures SheetPlayed(rules.completion, PlayRallies(rules, st, play), sheet + [last])
  {
    var c := rules.completion;
    SheetAcceptsExactlyPlayableSets(c, |sheet| + 1, last.scoreA, last.scoreB, winner);
    play :|
      DecidesSet(c, |sheet| + 1, play, winner) && Tally(play, Home) == last.scoreA && Tally(play, Away) == last.scoreB;
    PlaySet(rules, st, play, winner);
    ClosingPointPlaysSheet(c, st, sheet, last, score, winner);
  }

  lemma {:induction false} UndecidedAppends(rules: Rules, first: seq<Side>, second: seq<Side>)
    requires rules.completion.Sets?
    requires UndecidedThroughout(rules, FRESH_STATE, first)
    requires UndecidedThroughout(rules, PlayRallies(rules, FRESH_STATE, first), second)
    ensures UndecidedThroughout(rules, FRESH_STATE, first + second)
  {
    var rallies := first + second;
    forall k | 0 <= k < |rallies| ensures !Decided(rules.completion, PlayRallies(rules, FRESH_STATE, rallies[..k]).score) {
      if k < |first| {
        assert rallies[..k] == first[..k];
      } else {
        assert rallies[..k] == first + second[..k - |first|];
        PlayAppends(rules, FRESH_STATE, first, second[..k - |first|]);
      }
    }
  }

  lemma {:induction false} PlaySheet(rules: Rules, sheet: seq<PeriodScore>) returns (rallies: seq<Side>)
    requires Valid(rules) && rules.completion.Sets? && WithinLimits(sheet)
    requires SheetScore(rules.completion, sheet).Ok? && NoneRunsPastTarget(rules.completion, sheet)
    ensures UndecidedThroughout(rules, FRESH_STATE, rallies)
    ensures SheetPlayed(rules.completion, PlayRallies(rules, FRESH_STATE, rallies), sheet)
  {
    if sheet == [] {
      rallies := [];
    } else {
      var n := |sheet| - 1;
      var last, prior := sheet[n], sheet[..n];
      var winner := ValidSetWinner(rules.completion, n + 1, last.scoreA, last.scoreB).value;
      var before := PlaySheet(rules, prior);
      var st := PlayRallies(rules, FRESH_STATE, before);
      var play := PlayOneMoreSet(rules, st, prior, last, SheetScore(rules.completion, prior).value, winner);
      rallies := before + play;
      assert sheet == prior + [last];
      UndecidedAppends(rules, before, play);
      PlayAppends(rules, FRESH_STATE, before, play);
    }
  }

  // ----- From rallies to operations on the match -----

  function RallyStep(id: nat, side: Side): Step {
    RegisterStep(OnePoint(id, side))
  }

  function LiveSteps(rallies: seq<Side>): seq<Step> {
    if rallies == [] then [StartStep]
    else LiveSteps(rallies[..|rallies| - 1]) + [RallyStep(|rallies|, rallies[|rallies| - 1])]
  }

  /** A live, running match whose events carry ids up to `last`. */
  predicate Rallying(m: Match, last: nat) {
    m.status.Live? && !m.paused && forall i | 0 <= i < |m.events| :: m.events[i].id <= last
  }

  lemma {:induction false} OneRally(rules: Rules, m: Match, id: nat, side: Side)
    requires rules.completion.Sets? && id > 0 && Rallying(m, id - 1) && !Decided(rules.completion, m.state.score)
    ensures
      var next := Take(rules, m, RallyStep(id, side));
      next.state == AddPoints(rules, m.state, side, 1) && Rallying(next, id)
  {
    assert MayRegister(rules, m, RallyStep(id, side).request);
  }

  lemma {:induction false} RunLiveSteps(rules: Rules, m: Match, rallies: seq<Side>)
    requires rules.completion.Sets? && Fresh(m) && m.entryA.Some? && m.entryB.Some?
    requires UndecidedThroughout(rules, FRESH_STATE, rallies)
    ensures OnePointRun(LiveSteps(rallies))
    ensures
      var now := Run(rules, m, LiveSteps(rallies));
      && now.state == PlayRallies(rules, FRESH_STATE, rallies)
      && Rallying(now, |rallies|)
  {
    if rallies == [] {
      assert LiveSteps(rallies)[..0] == [];
    } else {
      var n := |rallies| - 1;
      var before := rallies[..n];
      forall k | 0 <= k < n ensures !Decided(rules.completion, PlayRallies(rules, FRESH_STATE, before[..k]).score) {
        assert before[..k] == rallies[..k];
      }
      RunLiveSteps(rules, m, before);
      var steps := LiveSteps(rallies);
      assert steps[..|steps| - 1] == LiveSteps(before);
      assert steps[|steps| - 1] == RallyStep(|rallies|, rallies[n]);
      OneRally(rules, Run(rules, m, LiveSteps(before)), |rallies|, rallies[n]);
    }
  }

  // ----- The theorem -----

  /** Some live run of one-point events, undos included, ends decided with exactly these period results. */
  ghost predicate LiveRunReaches(rules: Rules, m: Match, steps: seq<Step>, sheet: seq<PeriodScore>)
    requires rules.completion.Sets?
  {
    && OnePointRun(steps)
    && Decided(rules.completion, Run(rules, m, steps).state.score)
    && Run(rules, m, steps).state.results == SheetResults(sheet)
  }

  lemma {:induction false} SameResultsSameSheet(sheet: seq<PeriodScore>, sheet': seq<PeriodScore>)
    requires SheetResults(sheet) == SheetResults(sheet')
    ensures sheet == sheet'
  {
    assert |sheet| > 0 ==> |sheet| in SheetResults(sheet');
    assert |sheet'| > 0 ==> |sheet'| in SheetResults(sheet);
    forall i | 0 <= i < |sheet| ensures sheet[i] == sheet'[i] {
      assert SheetResults(sheet)[i + 1] == SheetResults(sheet')[i + 1];
    }
  }

  lemma {:induction false} LiveResultIsAccepted(rules: Rules, m: Match, steps: seq<Step>, sheet: seq<PeriodScore>)
    requires Valid(rules) && rules.completion.Sets? && Fresh(m) && m.entryA.Some? && m.entryB.Some?
    requires WithinLimits(sheet) && LiveRunReaches(rules, m, steps, sheet)
    ensures NoneRunsPastTarget(rules.completion, sheet)
    ensures
      var recorded := RecordResult(rules, m, None, None, sheet, None);
      var live := Run(rules, m, steps).state;
      && recorded.Ok?
      && recorded.value.state.results == live.results
      && recorded.value.state.score.scoreA == live.score.scoreA
      && recorded.value.state.score.scoreB == live.score.scoreB
      && recorded.value.state.score.currentPeriod == live.score.currentPeriod
  {
    EveryRunExplained(rules, m, steps);
    EveryRunConsistent(rules, m, steps);
    SurvivingOnePoint(rules, m, steps);
    var read := LegalHistoryReadsAsSheet(rules, Surviving(rules, m, steps));
    SameResultsSameSheet(read, sheet);
    assert SheetScore(rules.completion, []) == Ok((0, 0));
  }

  lemma {:induction false} AcceptedSheetIsPlayed(
      rules: Rules, m: Match, sheet: seq<PeriodScore>)
    returns (steps: seq<Step>)
    requires Valid(rules) && rules.completion.Sets? && Fresh(m)
    requires RecordResult(rules, m, None, None, sheet, None).Ok? && NoneRunsPastTarget(rules.completion, sheet)
    ensures LiveRunReaches(rules, m, steps, sheet)
  {
    var rallies := PlaySheet(rules, sheet);
    RunLiveSteps(rules, m, rallies);
    steps := LiveSteps(rallies);
  }

  /**
   * For every sheet within the input limits: the score sheet accepts it, with no set past
   * its target under a one-point advantage, exactly when some live run of one-point
   * events ends decided with the same period results. Score, results and current period
   * then agree, whatever that run was.
   */
  lemma {:induction false} SheetAgreesWithLivePlay(rules: Rules, m: Match, sheet: seq<PeriodScore>)
    requires Valid(rules) && rules.completion.Sets? && Fresh(m) && m.entryA.Some? && m.entryB.Some?
    requires WithinLimits(sheet)
    ensures
      (exists steps :: LiveRunReaches(rules, m, steps, sheet)) <==>
      RecordResult(rules, m, None, None, sheet, None).Ok? && NoneRunsPastTarget(rules.completion, sheet)
    ensures forall steps | LiveRunReaches(rules, m, steps, sheet) ::
      var recorded, live := RecordResult(rules, m, None, None, sheet, None).value.state, Run(rules, m, steps).state;
      && recorded.results == live.results
      && recorded.score.scoreA == live.score.scoreA
      && recorded.score.scoreB == live.score.scoreB
      && recorded.score.currentPeriod == live.score.currentPeriod
  {
    forall steps | LiveRunReaches(rules, m, steps, sheet)
      ensures
        var recorded, live := RecordResult(rules, m, None, None, sheet, None), Run(rules, m, steps).state;
        && NoneRunsPastTarget(rules.completion, sheet)
        && recorded.Ok?
        && recorded.value.state.results == live.results
        && recorded.value.state.score.scoreA == live.score.scoreA
        && recorded.value.state.score.scoreB == live.score.scoreB
        && recorded.value.state.score.currentPeriod == live.score.currentPeriod
    {
      LiveResultIsAccepted(rules, m, steps, sheet);
    }
    if RecordResult(rules, m, None, None, sheet, None).Ok? && NoneRunsPastTarget(rules.completion, sheet) {
      var steps := AcceptedSheetIsPlayed(rules, m, sheet);
    }
  }
}
