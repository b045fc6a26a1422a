/** What every live run of a match keeps, in the two scoring modes, and what the whistle adds. */
module MatchTheorems {
  import opened Wrappers
  import opened Entries
  import opened Regulation
  import opened Statuses
  import opened LiveMatch
  import opened MatchHistory
  import opened MatchResults

  /** Sets mode, after any run of events, clock updates, undos, postponements and restarts. */
  lemma {:induction false} SetsModeInvariant(rules: Rules, m: Match, steps: seq<Step>)
    requires Valid(rules) && rules.completion.Sets? && Fresh(m)
    ensures
      var c, st := rules.completion, Run(rules, m, steps).state;
      var s := st.score;
      var played := s.scoreA + s.scoreB;
      // Each score counts the stored sets that side won; those sets are exactly the closed ones.
      && played >= 0
      && s.scoreA == SetsWon(c, st.results, played, Home)
      && s.scoreB == SetsWon(c, st.results, played, Away)
      && (forall p :: p in st.results <==> 1 <= p <= played)
      && (forall p | p in st.results :: SetWinner(c, p, st.results[p].scoreA, st.results[p].scoreB).Some?)
      // The open set is not won yet, unless the match is decided and it is the last closed set.
      && (!Decided(c, s) ==> SetWinner(c, s.currentPeriod, s.periodA, s.periodB).None?)
      && (Decided(c, s) ==> s.currentPeriod in st.results && st.results[s.currentPeriod] == PeriodScore(s.periodA, s.periodB))
      && s.currentPeriod == (if Decided(c, s) then played else played + 1)
      && 1 <= s.currentPeriod <= PeriodCount(rules)
      && s.scoreA <= c.setsToWin && s.scoreB <= c.setsToWin
      && !(s.scoreA == c.setsToWin && s.scoreB == c.setsToWin)
  {
    EveryRunConsistent(rules, m, steps);
    var st := Run(rules, m, steps).state;
    assert OpenSet(rules.completion, st, st.score.scoreA + st.score.scoreB);
  }

  /** Periods mode: no point appears or disappears, also across undos that go back over a period. */
  lemma {:induction false} PeriodsModeConservesPoints(rules: Rules, m: Match, steps: seq<Step>)
    requires Valid(rules) && rules.completion.Periods? && Fresh(m)
    ensures
      var st := Run(rules, m, steps).state;
      && st.score.currentPeriod >= 1
      && (forall p :: p in st.results <==> 1 <= p < st.score.currentPeriod)
      && st.score.scoreA == st.score.periodA + StoredPoints(st.results, st.score.currentPeriod - 1, Home)
      && st.score.scoreB == st.score.periodB + StoredPoints(st.results, st.score.currentPeriod - 1, Away)
  {
    EveryRunConsistent(rules, m, steps);
  }

  /** After the whistle the stored partials alone add up to the final score. */
  lemma {:induction false} FinishStoresWholeScore(
      rules: Rules, m: Match, steps: seq<Step>,
      period: nat, scoreA: Option<int>, scoreB: Option<int>, reasonGiven: bool, tiebreak: Option<Tiebreak>)
    requires Valid(rules) && rules.completion.Periods? && Fresh(m)
    requires MayFinish(rules, Run(rules, m, steps), period, scoreA, scoreB, reasonGiven, tiebreak)
    ensures
      var live := Run(rules, m, steps).state.score;
      var ended := Finish(rules, Run(rules, m, steps), period, scoreA, scoreB, reasonGiven, tiebreak).value.state;
      && ended.score == live
      && (forall p :: p in ended.results <==> 1 <= p <= period)
      && StoredPoints(ended.results, period, Home) == live.scoreA
      && StoredPoints(ended.results, period, Away) == live.scoreB
  {
    PeriodsModeConservesPoints(rules, m, steps);
    var live := Run(rules, m, steps).state;
    var results := live.results[period := PeriodScore(live.score.periodA, live.score.periodB)];
    StoredPointsUnchanged(live.results, results, period - 1, Home);
    StoredPointsUnchanged(live.results, results, period - 1, Away);
  }

  // ----- Undo after the whistle -----

  function Leader(s: Snapshot): Option<Side> {
    if s.scoreA > s.scoreB then Some(Home) else if s.scoreA < s.scoreB then Some(Away) else None
  }

  function Entrant(m: Match, side: Side): Option<Entry> {
    if side.Home? then m.entryA else m.entryB
  }

  /**
   * What keeps a recorded winner right when the score goes back: the leader stays the same; or the restored score is
   * level, and a level score needs a winner here or was the final one too; or a level final score was decided in
   * favour of the side that now leads.
   */
  predicate WinnerSurvives(rules: Rules, m: Match, restored: Snapshot) {
    var before, after := Leader(m.state.score), Leader(restored);
    if after.None? then before.None? || !DrawAllowed(rules, m)
    else before == after || (before.None? && !DrawAllowed(rules, m) && m.winner == Entrant(m, after.value))
  }

  /** Undo does not look at the status: after the whistle the winner stays justified exactly in these cases. */
  lemma {:induction false} UndoAfterTheWhistleExactly(rules: Rules, m: Match, eventId: nat, restore: Snapshot)
    requires m.status.Finished? && m.entryA.Some? && m.entryB.Some? && m.entryA != m.entryB
    requires WinnerFits(rules, m) && MayUndo(m, eventId, restore)
    ensures WinnerFits(rules, Undo(rules, m, eventId, restore).value) <==> WinnerSurvives(rules, m, restore)
  {
  }

  /** The score and the results go back to what they were, whistle or not: the last partial is taken out again. */
  lemma {:induction false} UndoAfterTheWhistleIsUndoBefore(
      rules: Rules, m: Match, steps: seq<Step>, period: nat, scoreA: Option<int>, scoreB: Option<int>,
      reasonGiven: bool, tiebreak: Option<Tiebreak>, eventId: nat, restore: Snapshot)
    requires Valid(rules) && Fresh(m)
    requires MayFinish(rules, Run(rules, m, steps), period, scoreA, scoreB, reasonGiven, tiebreak)
    requires MayUndo(Run(rules, m, steps), eventId, restore)
    ensures
      var live := Run(rules, m, steps);
      var ended := Finish(rules, live, period, scoreA, scoreB, reasonGiven, tiebreak).value;
      && MayUndo(ended, eventId, restore)
      && Undo(rules, ended, eventId, restore).value.state == Undo(rules, live, eventId, restore).value.state
      && Run(rules, m, steps + [UndoStep(eventId, restore)]).state == Undo(rules, live, eventId, restore).value.state
  {
    var live := Run(rules, m, steps);
    var ended := Finish(rules, live, period, scoreA, scoreB, reasonGiven, tiebreak).value;
    assert (steps + [UndoStep(eventId, restore)])[..|steps|] == steps;
    EveryRunConsistent(rules, m, steps);
    EveryRunConsistent(rules, m, steps + [UndoStep(eventId, restore)]);
    if !rules.completion.Sets? {
      var undone := Undo(rules, live, eventId, restore).value.state;
      assert restore.currentPeriod <= period by {
        assert period !in live.state.results;
        assert period in undone.results ==> period in live.state.results;
      }
      var event := live.events[LatestActive(live.events).value];
      assert ResultsWithout(rules, ended.state.results, event) == ResultsWithout(rules, live.state.results, event);
    }
  }

  /** So the stored partials still add up to the score on a side exactly if its restored partial is zero. */
  lemma {:induction false} PartialsAfterUndoneWhistle(
      rules: Rules, m: Match, steps: seq<Step>, period: nat, scoreA: Option<int>, scoreB: Option<int>,
      reasonGiven: bool, tiebreak: Option<Tiebreak>, eventId: nat, restore: Snapshot)
    requires Valid(rules) && rules.completion.Periods? && Fresh(m)
    requires MayFinish(rules, Run(rules, m, steps), period, scoreA, scoreB, reasonGiven, tiebreak)
    requires MayUndo(Run(rules, m, steps), eventId, restore)
    ensures
      var ended := Finish(rules, Run(rules, m, steps), period, scoreA, scoreB, reasonGiven, tiebreak).value;
      var st := Undo(rules, ended, eventId, restore).value.state;
      && (forall p :: p in st.results <==> 1 <= p < restore.currentPeriod)
      && (StoredPoints(st.results, restore.currentPeriod, Home) == st.score.scoreA <==> restore.periodA == 0)
      && (StoredPoints(st.results, restore.currentPeriod, Away) == st.score.scoreB <==> restore.periodB == 0)
  {
    UndoAfterTheWhistleIsUndoBefore(
      rules, m, steps, period, scoreA, scoreB, reasonGiven, tiebreak, eventId, restore);
    EveryRunConsistent(rules, m, steps + [UndoStep(eventId, restore)]);
    var ended := Finish(rules, Run(rules, m, steps), period, scoreA, scoreB, reasonGiven, tiebreak).value;
    assert Undo(rules, ended, eventId, restore).value.state.score == restore;
  }

  /** The winner does lose its justification: here a 1-0 becomes a 0-0 that A won. */
  lemma {:induction false} UndoAfterTheWhistleLeavesTheWinner(rules: Rules, m: Match)
    requires rules == Rules(2, false, Periods(true, 0))
    requires m == Match(Scheduled, false, Some(7), Some(8), true, FRESH_STATE, [], 0, None, None)
    ensures
      var goal := RegisterStep(OnePoint(1, Home));
      var live := Run(rules, m, [StartStep, goal]);
      && Finish(rules, live, 1, None, None, true, None).Ok?
      && var ended := Finish(rules, live, 1, None, None, true, None).value;
      && MayUndo(ended, 1, FRESH_STATE.score)
      && var undone := Undo(rules, ended, 1, FRESH_STATE.score).value;
      && undone.status.Finished? && undone.winner == Some(7)
      && undone.state.score.scoreA == undone.state.score.scoreB
      && WinnerFits(rules, ended) && !WinnerFits(rules, undone)
  {
    var goal := RegisterStep(OnePoint(1, Home));
    assert [StartStep, goal][..1] == [StartStep] && [StartStep][..0] == [];
    assert Run(rules, m, [StartStep]) == m.(status := Live, paused := false);
    var live := Run(rules, m, [StartStep, goal]);
    assert live.events == [Event(1, 1, Of(Home), 1, false, 1, 0, FRESH_STATE.score, false)];
    assert live.events[..0] == [];
  }
}
