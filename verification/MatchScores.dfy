/** Whose points the score counts: what one accepted event does, and what the events of a whole run add up to. */
module MatchScores {
  import opened Wrappers
  import opened Entries
  import NatSets
  import opened Regulation
  import opened Statuses
  import opened LiveMatch
  import opened MatchHistory
  import opened MatchResults

  function ScoreOf(s: Snapshot, side: Side): int {
    if side.Home? then s.scoreA else s.scoreB
  }

  function PartialOf(s: Snapshot, side: Side): int {
    if side.Home? then s.periodA else s.periodB
  }

  // ----- One event -----

  /** These points go to one side, into its score and its open partial, and nothing else changes. */
  ghost predicate Credits(before: ScoreState, after: ScoreState, to: EventSide, points: nat) {
    && after.results == before.results && after.score.currentPeriod == before.score.currentPeriod
    && forall side: Side ::
         && ScoreOf(after.score, side) == ScoreOf(before.score, side) + (if to == Of(side) then points else 0)
         && PartialOf(after.score, side) == PartialOf(before.score, side) + (if to == Of(side) then points else 0)
  }

  /** Outside sets mode an accepted event is worth what its rule says, to the side it names and to no other. */
  lemma {:induction false} ScoringEventCredits(rules: Rules, m: Match, e: EventRequest)
    requires Register(rules, m, e).Ok? && !rules.completion.Sets? && (e.declaresResult ==> rules.completion.Periods?)
    ensures
      var after := Register(rules, m, e).value;
      && (e.scoring.Some? ==> Credits(m.state, after.state, e.side, e.scoring.value))
      && (e.scoring.None? && e.secondary.Some? ==> Credits(m.state, after.state, e.side, e.secondary.value.scorePoints))
      && (e.scoring.Some? || e.secondary.Some?)
  {
  }

  /** What a side gets from a result that is declared outright for `to`. */
  function DeclaredFor(rules: Rules, to: EventSide, side: Side): int {
    match rules.completion
    case Board(_, winPoints, drawPoints) => if to.Neutral? then drawPoints else if to == Of(side) then winPoints else 0
    case _ => if to == Of(side) then 1 else 0
  }

  /** A declared result gives its side the win and the other side nothing, or both the draw, and moves no partial. */
  lemma {:induction false} DeclarationSetsTheScore(rules: Rules, m: Match, e: EventRequest)
    requires Register(rules, m, e).Ok? && e.declaresResult
    requires rules.completion.Board? || rules.completion.Result?
    ensures
      var before, after := m.state, Register(rules, m, e).value.state;
      && (forall side: Side :: ScoreOf(after.score, side) == DeclaredFor(rules, e.side, side))
      && (forall side: Side :: PartialOf(after.score, side) == PartialOf(before.score, side))
      && after.results == before.results && after.score.currentPeriod == before.score.currentPeriod
      && (e.side.Neutral? ==> rules.completion.allowDraw)
  {
  }

  /** The points reach the open set: it goes on, or it is stored and counted for the side that won it. */
  ghost predicate MovesSet(c: Completion, before: ScoreState, after: ScoreState, to: EventSide, points: nat)
    requires c.Sets?
  {
    var a := before.score.periodA + if to == Of(Home) then points else 0;
    var b := before.score.periodB + if to == Of(Away) then points else 0;
    var period, won := before.score.currentPeriod, SetWinner(c, before.score.currentPeriod, a, b);
    && (forall side: Side ::
          ScoreOf(after.score, side) == ScoreOf(before.score, side) + if won == Some(side) then 1 else 0)
    && after.results == (if won.Some? then before.results[period := PeriodScore(a, b)] else before.results)
    && var over := after.score.scoreA >= c.setsToWin || after.score.scoreB >= c.setsToWin;
    && after.score.currentPeriod == (if won.Some? && !over then period + 1 else period)
    && after.score.periodA == (if won.Some? && !over then 0 else a)
    && after.score.periodB == (if won.Some? && !over then 0 else b)
  }

  /** In sets mode an accepted scoring event moves the open set by what its rule says, until the match is decided. */
  lemma {:induction false} ScoringEventMovesSet(rules: Rules, m: Match, e: EventRequest)
    requires Register(rules, m, e).Ok? && rules.completion.Sets? && e.scoring.Some? && e.scoring.value > 0
    ensures MovesSet(rules.completion, m.state, Register(rules, m, e).value.state, e.side, e.scoring.value)
    ensures
      m.state.score.scoreA < rules.completion.setsToWin && m.state.score.scoreB < rules.completion.setsToWin
  {
  }

  // ----- Events that are accepted -----

  /** What an accepted event has fulfilled, and that everything the client echoed is what is now stored. */
  lemma {:induction false} AcceptedEventFits(rules: Rules, m: Match, e: EventRequest)
    requires Register(rules, m, e).Ok?
    ensures m.status.Live? && forall i | 0 <= i < |m.events| :: m.events[i].id != e.id
    ensures rules.hasClock && m.paused ==>
      e.scoring.None? && (e.secondary.Some? ==> e.secondary.value.allowedWhenStopped) &&
      (e.declaresResult ==> rules.completion.Periods? || rules.completion.Sets?)
    ensures e.side.Neutral? ==>
      e.scoring.None? && (e.secondary.Some? ==> !e.secondary.value.requiresSide && e.secondary.value.scorePoints == 0)
    ensures e.author.Named? ==>
      e.author.onRoster && ((e.side == Of(Home) && m.entryA.Some?) || (e.side == Of(Away) && m.entryB.Some?))
    ensures
      var after := Register(rules, m, e).value;
      && |after.events| == |m.events| + 1 && after.events[..|m.events|] == m.events
      && var stored := after.events[|m.events|];
      && stored.id == e.id && stored.sequence == m.lastSequence + 1 && !stored.undone && stored.side == e.side
      && (e.scoring.Some? ==> stored.points == e.scoring.value)
      && (e.scoring.None? ==> stored.points == if e.secondary.Some? then e.secondary.value.scorePoints else 0)
      && (e.clientPoints.Some? ==> e.clientPoints.value == stored.points)
      && stored.scoreA == after.state.score.scoreA && stored.scoreB == after.state.score.scoreB
      && stored.previous == m.state.score
    ensures e.period.Some? ==> e.period.value == m.state.score.currentPeriod
    ensures
      var s := Register(rules, m, e).value.state.score;
      && (e.patch.scoreA.Some? ==> e.patch.scoreA.value == s.scoreA)
      && (e.patch.scoreB.Some? ==> e.patch.scoreB.value == s.scoreB)
      && (e.patch.periodA.Some? ==> e.patch.periodA.value == s.periodA)
      && (e.patch.periodB.Some? ==> e.patch.periodB.value == s.periodB)
      && (e.patch.currentPeriod.Some? ==> e.patch.currentPeriod.value == s.currentPeriod)
      && (e.echo.scoreA.Some? ==> e.echo.scoreA.value == s.scoreA)
      && (e.echo.scoreB.Some? ==> e.echo.scoreB.value == s.scoreB)
    ensures
      var results := Register(rules, m, e).value.state.results;
      e.echo.closed.Some? ==>
        e.echo.closed.value.period in results && results[e.echo.closed.value.period] == e.echo.closed.value.score &&
        e.echo.closed.value.period == m.state.score.currentPeriod
  {
  }

  /** A plain point on a running match that is not decided is always accepted. */
  lemma {:induction false} PlainPointAccepted(rules: Rules, m: Match, id: nat, side: Side)
    requires m.status.Live? && !(rules.hasClock && m.paused)
    requires forall i | 0 <= i < |m.events| :: m.events[i].id != id
    requires
      rules.completion.Sets? ==>
        m.state.score.scoreA < rules.completion.setsToWin && m.state.score.scoreB < rules.completion.setsToWin
    ensures Register(rules, m, OnePoint(id, side)).Ok?
  {
  }

  // ----- The events of a run -----

  /** What the events give a side, the last declared result replacing what came before it. */
  function Credited(rules: Rules, events: seq<Event>, side: Side): int {
    if events == [] then 0
    else
      var last := events[|events| - 1];
      if last.declares then DeclaredFor(rules, last.side, side)
      else Credited(rules, events[..|events| - 1], side) + if last.side == Of(side) then last.points else 0
  }

  /** The score is what the active events give; each of them remembers what those before it gave. */
  ghost predicate ScoreIsCredited(rules: Rules, m: Match) {
    var active := ActiveEvents(m.events);
    && (forall side: Side :: ScoreOf(m.state.score, side) == Credited(rules, active, side))
    && EachRemembers(rules, active)
  }

  ghost predicate EachRemembers(rules: Rules, active: seq<Event>) {
    forall i, side: Side | 0 <= i < |active| :: ScoreOf(active[i].previous, side) == Credited(rules, active[..i], side)
  }

  lemma {:induction false} OneMoreCredited(rules: Rules, active: seq<Event>, e: Event)
    requires EachRemembers(rules, active)
    requires forall side: Side :: ScoreOf(e.previous, side) == Credited(rules, active, side)
    ensures EachRemembers(rules, active + [e])
    ensures forall side: Side ::
      Credited(rules, active + [e], side) ==
      if e.declares then DeclaredFor(rules, e.side, side)
      else Credited(rules, active, side) + if e.side == Of(side) then e.points else 0
  {
    var all := active + [e];
    assert all[..|active|] == active;
    forall i, side: Side | 0 <= i < |all| ensures ScoreOf(all[i].previous, side) == Credited(rules, all[..i], side) {
      assert i < |active| ==> all[..i] == active[..i];
    }
  }

  /** The event an accepted request stores accounts for the new score. */
  lemma {:induction false} StoredEventCredits(rules: Rules, m: Match, request: EventRequest) returns (e: Event)
    requires !rules.completion.Sets? && Register(rules, m, request).Ok?
    ensures
      var after := Register(rules, m, request).value;
      && after.events == m.events + [e] && !e.undone && e.previous == m.state.score
      && forall side: Side ::
           ScoreOf(after.state.score, side) ==
           if e.declares then DeclaredFor(rules, e.side, side)
           else ScoreOf(m.state.score, side) + if e.side == Of(side) then e.points else 0
  {
    var after := Register(rules, m, request).value;
    e := after.events[|m.events|];
    assert after.events == m.events + [e];
    if e.declares {
      DeclarationSetsTheScore(rules, m, request);
    }
  }

  lemma {:induction false} RegisterKeepsCredited(rules: Rules, m: Match, request: EventRequest)
    requires !rules.completion.Sets? && ScoreIsCredited(rules, m) && Register(rules, m, request).Ok?
    ensures ScoreIsCredited(rules, Register(rules, m, request).value)
  {
    var e := StoredEventCredits(rules, m, request);
    ActiveEventAdded(m.events, e);
    OneMoreCredited(rules, ActiveEvents(m.events), e);
  }

  lemma {:induction false} UndoKeepsCredited(rules: Rules, m: Match, eventId: nat, restore: Snapshot)
    requires SequencesNeverReused(m) && ScoreIsCredited(rules, m) && MayUndo(m, eventId, restore)
    ensures ScoreIsCredited(rules, Undo(rules, m, eventId, restore).value)
  {
    var active := ActiveEvents(m.events);
    var n := |active| - 1;
    UndoneMatch(rules, m, eventId, restore);
    forall i, side: Side | 0 <= i < n
      ensures ScoreOf(active[..n][i].previous, side) == Credited(rules, active[..n][..i], side)
    {
      assert active[..n][..i] == active[..i];
    }
  }

  lemma {:induction false} TakeKeepsCredited(rules: Rules, m: Match, step: Step)
    requires !rules.completion.Sets? && SequencesNeverReused(m) && ScoreIsCredited(rules, m)
    ensures ScoreIsCredited(rules, Take(rules, m, step))
  {
    if Attempt(rules, m, step).Ok? {
      match step
      case RegisterStep(e) => RegisterKeepsCredited(rules, m, e);
      case UndoStep(id, restore) => UndoKeepsCredited(rules, m, id, restore);
      case ClockStep(p) => ClockKeepsCredited(rules, m, p);
      case _ =>
    }
  }

  lemma {:induction false} ClockKeepsCredited(rules: Rules, m: Match, p: ClockPatch)
    requires ScoreIsCredited(rules, m) && LiveMatch.UpdateClock(rules, m, p).Ok?
    ensures ScoreIsCredited(rules, LiveMatch.UpdateClock(rules, m, p).value)
  {
  }

  /**
   * Outside sets mode, after every run each side's score is the sum of the points of its own events that were not
   * undone, counted from the last declared result if there is one.
   */
  lemma {:induction false} ScoreCountsOwnEvents(rules: Rules, m: Match, steps: seq<Step>, side: Side)
    requires Valid(rules) && !rules.completion.Sets? && Fresh(m)
    ensures
      var now := Run(rules, m, steps);
      ScoreOf(now.state.score, side) == Credited(rules, ActiveEvents(now.events), side)
  {
    RunKeepsCredited(rules, m, steps);
  }

  lemma {:induction false} RunKeepsCredited(rules: Rules, m: Match, steps: seq<Step>)
    requires Valid(rules) && !rules.completion.Sets? && Fresh(m)
    ensures ScoreIsCredited(rules, Run(rules, m, steps))
  {
    if steps != [] {
      var n := |steps| - 1;
      RunKeepsCredited(rules, m, steps[..n]);
      ScoreIsReplayOfSurvivingHistory(rules, m, steps[..n]);
      TakeKeepsCredited(rules, Run(rules, m, steps[..n]), steps[n]);
    }
  }

  // ----- The clock -----

  /** The period's partials are stored, and the next period, which the regulation has, starts at nothing. */
  predicate ClosesPeriod(rules: Rules, before: ScoreState, after: ScoreState) {
    && !rules.completion.Sets? && after.score.currentPeriod == before.score.currentPeriod + 1
    && after.score.currentPeriod <= rules.periodCount +
         (if rules.completion.Periods? then rules.completion.overtimePeriods else 0)
    && after.score.periodA == 0 && after.score.periodB == 0
    && after.results ==
         before.results[before.score.currentPeriod := PeriodScore(before.score.periodA, before.score.periodB)]
  }

  /** A clock update keeps the period or closes it; closing stores its partials and starts the next at nothing. */
  lemma {:induction false} ClockUpdateFits(rules: Rules, m: Match, p: ClockPatch)
    requires LiveMatch.UpdateClock(rules, m, p).Ok?
    ensures m.status.Live?
    ensures
      var before, after := m.state, LiveMatch.UpdateClock(rules, m, p).value.state;
      && after.score.scoreA == before.score.scoreA && after.score.scoreB == before.score.scoreB
      && (p.currentPeriod.None? ==> after == before)
      && (p.currentPeriod.Some? ==> p.currentPeriod.value == after.score.currentPeriod)
      && (after != before ==> ClosesPeriod(rules, before, after))
      && (p.periodA.Some? ==> p.periodA.value == after.score.periodA)
      && (p.periodB.Some? ==> p.periodB.value == after.score.periodB)
    ensures
      var after := LiveMatch.UpdateClock(rules, m, p).value;
      && (!rules.hasClock ==> !after.paused)
      && (rules.hasClock ==> after.paused == if p.paused.Some? then p.paused.value else m.paused)
      && (rules.hasClock && m.paused && !after.paused ==> p.runningSince)
      && after.events == m.events && after.status == m.status
    ensures
      var results := LiveMatch.UpdateClock(rules, m, p).value.state.results;
      p.results.Some? ==>
        |p.results.value| == |results| &&
        forall i | 0 <= i < |p.results.value| ::
          p.results.value[i].period in results && p.results.value[i].score == results[p.results.value[i].period]
  {
    var results := LiveMatch.UpdateClock(rules, m, p).value.state.results;
    ResultListed(results);
  }

  /** Outside sets mode a live match goes on to any period the regulation has, overtime included. */
  lemma {:induction false} NextPeriodAccepted(rules: Rules, m: Match)
    requires m.status.Live? && !rules.completion.Sets?
    requires m.state.score.currentPeriod <
      rules.periodCount + if rules.completion.Periods? then rules.completion.overtimePeriods else 0
    ensures
      var p := ClockPatch(Some(m.state.score.currentPeriod + 1), Some(0), Some(0), None, false, None);
      LiveMatch.UpdateClock(rules, m, p).Ok?
  {
  }

  lemma {:induction false} ResultListed(results: map<nat, PeriodScore>)
    ensures |ResultList(results)| == |results|
    ensures forall i | 0 <= i < |ResultList(results)| ::
      ResultList(results)[i].period in results && ResultList(results)[i].score == results[ResultList(results)[i].period]
  {
    var periods := NatSets.Sorted(results.Keys);
    forall i | 0 <= i < |periods| ensures periods[i] in results.Keys {
      assert periods[i] in periods;
    }
    CountMembers(periods);
    assert Members(periods) == results.Keys;
    assert |results.Keys| == |results|;
  }

  // ----- The start, the whistle and the sheet -----

  /** A match starts, with its clock running, exactly if both sides are known and it is scheduled or postponed. */
  lemma {:induction false} StartFits(m: Match)
    ensures
      Start(m).Ok? <==> m.entryA.Some? && m.entryB.Some? && (m.status == Scheduled || m.status == Postponed)
    ensures Start(m).Ok? ==> Start(m).value == m.(status := Live, paused := false)
  {
  }

  /** A sheet is taken for a match that has not started, or has no event left, and is of a size somebody would enter. */
  lemma {:induction false} SheetFits(
      rules: Rules, m: Match, scoreA: Option<int>, scoreB: Option<int>, sheet: seq<PeriodScore>,
      tiebreak: Option<Tiebreak>)
    requires RecordResult(rules, m, scoreA, scoreB, sheet, tiebreak).Ok?
    ensures m.entryA.Some? && m.entryB.Some? && RecordResult(rules, m, scoreA, scoreB, sheet, tiebreak).value.paused
    ensures m.status.Scheduled? || m.status.Postponed? || (m.status.Live? && forall e | e in m.events :: e.undone)
    ensures |sheet| <= 20
    ensures forall i | 0 <= i < |sheet| :: 0 <= sheet[i].scoreA <= 1000 && 0 <= sheet[i].scoreB <= 1000
  {
    NoActiveEvent(m.events);
  }

  lemma {:induction false} NoActiveEvent(events: seq<Event>)
    ensures LatestActive(events).None? <==> forall e | e in events :: e.undone
  {
    if events != [] {
      var n := |events| - 1;
      NoActiveEvent(events[..n]);
      assert events == events[..n] + [events[n]];
    }
  }

  /** The whistle keeps the score; without a reason it only comes when sets or periods are complete. */
  lemma {:induction false} WhistleFits(
      rules: Rules, m: Match, period: nat, scoreA: Option<int>, scoreB: Option<int>, reasonGiven: bool,
      tiebreak: Option<Tiebreak>)
    requires Finish(rules, m, period, scoreA, scoreB, reasonGiven, tiebreak).Ok?
    ensures m.status.Live? && period == m.state.score.currentPeriod
    ensures scoreA.Some? ==> scoreA.value == m.state.score.scoreA
    ensures scoreB.Some? ==> scoreB.value == m.state.score.scoreB
    ensures !reasonGiven ==>
      if rules.completion.Sets? then
        m.state.score.scoreA >= rules.completion.setsToWin || m.state.score.scoreB >= rules.completion.setsToWin
      else m.state.score.currentPeriod >= rules.periodCount
    ensures
      var ended := Finish(rules, m, period, scoreA, scoreB, reasonGiven, tiebreak).value;
      && ended.state.score == m.state.score && ended.paused && ended.events == m.events
      && ended.entryA == m.entryA && ended.entryB == m.entryB
      && (ended.state.score.scoreA > ended.state.score.scoreB ==> ended.winner == m.entryA)
      && (ended.state.score.scoreA < ended.state.score.scoreB ==> ended.winner == m.entryB)
      && (ended.state.score.scoreA == ended.state.score.scoreB && ended.winner.Some? ==>
            tiebreak.Some? && tiebreak.value.winner == ended.winner && ended.tiebreak == tiebreak)
  {
  }

  /** Outside sets mode the lines of a sheet, if there are any, add up to the score that is stored. */
  lemma {:induction false} SheetAddsUp(
      rules: Rules, m: Match, scoreA: Option<int>, scoreB: Option<int>, sheet: seq<PeriodScore>,
      tiebreak: Option<Tiebreak>)
    requires RecordResult(rules, m, scoreA, scoreB, sheet, tiebreak).Ok? && !rules.completion.Sets? && sheet != []
    ensures
      var st := RecordResult(rules, m, scoreA, scoreB, sheet, tiebreak).value.state;
      && StoredPoints(st.results, |sheet|, Home) == st.score.scoreA
      && StoredPoints(st.results, |sheet|, Away) == st.score.scoreB
  {
    StoredSheet(sheet, Home);
    StoredSheet(sheet, Away);
  }

  lemma {:induction false} StoredSheet(sheet: seq<PeriodScore>, side: Side)
    ensures StoredPoints(SheetResults(sheet), |sheet|, side) == SumPoints(sheet, side)
  {
    if sheet != [] {
      var n := |sheet| - 1;
      StoredSheet(sheet[..n], side);
      StoredPointsUnchanged(SheetResults(sheet[..n]), SheetResults(sheet), n, side);
    }
  }

  // ----- What is not refused -----

  /** The leader of a live match wins it by the whistle, at any time if a reason is given. */
  lemma {:induction false} WhistleAccepted(rules: Rules, m: Match)
    requires m.status.Live? && m.state.score.scoreA != m.state.score.scoreB
    ensures Finish(rules, m, m.state.score.currentPeriod, None, None, true, None).Ok?
  {
  }

  /** Outside sets mode any score that has a leader can be entered for a match that has not started. */
  lemma {:induction false} PlainSheetAccepted(rules: Rules, m: Match, scoreA: nat, scoreB: nat)
    requires !rules.completion.Sets? && m.entryA.Some? && m.entryB.Some? && scoreA != scoreB
    requires m.status.Scheduled? || m.status.Postponed?
    ensures RecordResult(rules, m, Some(scoreA), Some(scoreB), [], None).Ok?
    ensures RecordResult(rules, m, Some(scoreA), Some(scoreB), [PeriodScore(scoreA, scoreB)], None).Ok? <==>
              scoreA <= 1000 && scoreB <= 1000
  {
    var sheet := [PeriodScore(scoreA, scoreB)];
    assert sheet[..0] == [];
    assert SumPoints([], Home) == 0 && SumPoints([], Away) == 0;
    assert sheet[0].scoreA == scoreA && sheet[0].scoreB == scoreB;
  }

  /** A recorded result can be corrected to any score with a leader, and to a draw where that has a meaning. */
  lemma {:induction false} CorrectionFits(rules: Rules, m: Match, scoreA: int, scoreB: int)
    ensures
      CorrectResult(rules, m, scoreA, scoreB).Ok? <==>
      && (m.status.Finished? || m.status.Walkover?) && scoreA >= 0 && scoreB >= 0
      && (scoreA != scoreB || DrawAllowed(rules, m) || TiebreakWinner(m, m.tiebreak).Ok?)
  {
  }

  /** A tiebreak counts if it names an entrant, who has the higher score of two that are not negative, or on paper. */
  lemma {:induction false} TiebreakCounts(m: Match, home: Entry, away: Entry, t: Tiebreak)
    requires m.entryA == Some(home) && m.entryB == Some(away) && home != away && t.winner.Some?
    ensures
      TiebreakWinner(m, Some(t)).Ok? <==>
      && t.scoreA >= 0 && t.scoreB >= 0 && (t.winner.value == home || t.winner.value == away)
      && (t.scoreA == t.scoreB ==> t.administrative)
      && (t.scoreA > t.scoreB ==> t.winner.value == home) && (t.scoreB > t.scoreA ==> t.winner.value == away)
  {
  }
}
