/** Ending a match: by the whistle, from the score sheet, or by correcting a recorded result. */
module MatchResults {
  import opened Wrappers
  import opened Entries
  import opened Regulation
  import opened Statuses
  import opened LiveMatch
  import opened SetScores

  const MAX_SHEET_PERIODS: nat := 20
  const MAX_PERIOD_SCORE: nat := 1000

  predicate DrawAllowed(rules: Rules, m: Match) {
    !m.knockout && !rules.completion.Sets? && rules.completion.allowDraw
  }

  predicate IsEntrant(m: Match, entry: Entry) {
    m.entryA == Some(entry) || m.entryB == Some(entry)
  }

  /** The entry a tiebreak declares the winner, for the live, score-sheet and persisted forms alike. */
  function TiebreakWinner(m: Match, tiebreak: Option<Tiebreak>): (r: Outcome<Entry>)
    ensures r.Ok? ==>
      && tiebreak.Some? && tiebreak.value.winner == Some(r.value)
      && (m.entryA == Some(r.value) || m.entryB == Some(r.value))
      && (tiebreak.value.scoreA > tiebreak.value.scoreB ==> m.entryA == Some(r.value))
      && (tiebreak.value.scoreA < tiebreak.value.scoreB ==> m.entryB == Some(r.value))
      && (tiebreak.value.scoreA == tiebreak.value.scoreB ==> tiebreak.value.administrative)
  {
    if tiebreak.None? || tiebreak.value.winner.None? then Refused
    else
      var t := tiebreak.value;
      var winner := t.winner.value;
      if !IsEntrant(m, winner) then Refused
      else if t.scoreA < 0 || t.scoreB < 0 then Refused
      else if t.scoreA == t.scoreB && !t.administrative then Refused
      else if t.scoreA != t.scoreB && Some(winner) != (if t.scoreA > t.scoreB then m.entryA else m.entryB) then Refused
      else Ok(winner)
  }

  /** The winner is the entrant with the higher score; a tie has no winner only where a draw is allowed. */
  predicate WinnerFits(rules: Rules, m: Match) {
    var s := m.state.score;
    if s.scoreA > s.scoreB then m.winner == m.entryA
    else if s.scoreA < s.scoreB then m.winner == m.entryB
    else if DrawAllowed(rules, m) then m.winner.None?
    else m.winner.Some? && IsEntrant(m, m.winner.value)
  }

  datatype Verdict = Verdict(winner: Option<Entry>, tiebreak: Option<Tiebreak>)

  /** Winner and stored tiebreak for a final score. */
  function Judge(rules: Rules, m: Match, scoreA: int, scoreB: int, tiebreak: Option<Tiebreak>): (r: Outcome<Verdict>)
    ensures r.Ok? && m.entryA.Some? && m.entryB.Some? ==>
              && (r.value.winner.None? <==> scoreA == scoreB && DrawAllowed(rules, m))
              && (r.value.winner.Some? ==> IsEntrant(m, r.value.winner.value))
              && (r.value.tiebreak.Some? ==> r.value.winner.Some? && TiebreakWinner(m, tiebreak) == Ok(r.value.winner.value))
  {
    if scoreA != scoreB then
      Ok(Verdict(if scoreA > scoreB then m.entryA else m.entryB, None))
    else if DrawAllowed(rules, m) then
      Ok(Verdict(None, None))
    else
      var decided := TiebreakWinner(m, tiebreak);
      if decided.Refused? then Refused else Ok(Verdict(Some(decided.value), tiebreak))
  }

  // ----- The whistle -----

  predicate EndsEarly(rules: Rules, m: Match) {
    if rules.completion.Sets? then !Decided(rules.completion, m.state.score)
    else m.state.score.currentPeriod < PeriodCount(rules)
  }

  predicate MayFinish(
      rules: Rules, m: Match, period: nat, scoreA: Option<int>, scoreB: Option<int>, reasonGiven: bool,
      tiebreak: Option<Tiebreak>)
  {
    && m.status.Live?
    && period == m.state.score.currentPeriod
    && Echoes(scoreA, m.state.score.scoreA)
    && Echoes(scoreB, m.state.score.scoreB)
    && (EndsEarly(rules, m) ==> reasonGiven)
    && Judge(rules, m, m.state.score.scoreA, m.state.score.scoreB, tiebreak).Ok?
  }

  function Finish(
      rules: Rules, m: Match, period: nat, scoreA: Option<int>, scoreB: Option<int>, reasonGiven: bool,
      tiebreak: Option<Tiebreak>)
    : (r: Outcome<Match>)
    ensures r.Ok? ==> r.value.status.Finished? && WinnerFits(rules, r.value)
  {
    if !MayFinish(rules, m, period, scoreA, scoreB, reasonGiven, tiebreak) then Refused
    else
      var s := m.state.score;
      var verdict := Judge(rules, m, s.scoreA, s.scoreB, tiebreak).value;
      var results :=
        if rules.completion.Sets? then m.state.results else m.state.results[period := PeriodScore(s.periodA, s.periodB)];
      Ok(m.(status := Finished, paused := true, state := ScoreState(s, results),
            winner := verdict.winner, tiebreak := verdict.tiebreak))
  }

  // ----- The score sheet -----

  /** Sets score of a sheet, refusing sets after the decision and invalid sets. */
  function SheetScore(c: Completion, sheet: seq<PeriodScore>): Outcome<(int, int)>
    requires c.Sets?
  {
    if sheet == [] then Ok((0, 0))
    else
      var n := |sheet|;
      var before := SheetScore(c, sheet[..n - 1]);
      if before.Refused? || before.value.0 >= c.setsToWin || before.value.1 >= c.setsToWin then Refused
      else
        var winner := ValidSetWinner(c, n, sheet[n - 1].scoreA, sheet[n - 1].scoreB);
        if winner.Refused? then Refused
        else if winner.value.Home? then Ok((before.value.0 + 1, before.value.1))
        else Ok((before.value.0, before.value.1 + 1))
  }

  function SumPoints(sheet: seq<PeriodScore>, side: Side): int {
    if sheet == [] then 0
    else
      var last := sheet[|sheet| - 1];
      SumPoints(sheet[..|sheet| - 1], side) + if side.Home? then last.scoreA else last.scoreB
  }

  predicate WithinLimits(sheet: seq<PeriodScore>) {
    && |sheet| <= MAX_SHEET_PERIODS
    && forall i | 0 <= i < |sheet| ::
         0 <= sheet[i].scoreA <= MAX_PERIOD_SCORE && 0 <= sheet[i].scoreB <= MAX_PERIOD_SCORE
  }

  /** Final score a sheet stands for: outside sets mode, the one that was sent. */
  function FinalScore(
      rules: Rules, scoreA: Option<int>, scoreB: Option<int>, sheet: seq<PeriodScore>): (r: Outcome<(int, int)>)
    ensures r.Ok? && !rules.completion.Sets? ==>
      scoreA == Some(r.value.0) && scoreB == Some(r.value.1) && r.value.0 >= 0 && r.value.1 >= 0
  {
    if !WithinLimits(sheet) then Refused
    else if rules.completion.Sets? then
      var score := SheetScore(rules.completion, sheet);
      if sheet == [] || score.Refused? then Refused
      else if score.value.0 < rules.completion.setsToWin && score.value.1 < rules.completion.setsToWin then Refused
      else score
    else if scoreA.None? || scoreB.None? || scoreA.value < 0 || scoreB.value < 0 then Refused
    else if sheet != [] && (SumPoints(sheet, Home) != scoreA.value || SumPoints(sheet, Away) != scoreB.value) then Refused
    else Ok((scoreA.value, scoreB.value))
  }

  /** The stored period results of a sheet: its first line is period 1, and so on. */
  function SheetResults(sheet: seq<PeriodScore>): (results: map<nat, PeriodScore>)
    ensures forall p :: p in results <==> 1 <= p <= |sheet|
    ensures forall p | p in results :: results[p] == sheet[p - 1]
  {
    if sheet == [] then map[]
    else SheetResults(sheet[..|sheet| - 1])[|sheet| := sheet[|sheet| - 1]]
  }

  predicate AcceptsSheet(m: Match) {
    && (m.status.Scheduled? || m.status.Postponed? || (m.status.Live? && LatestActive(m.events).None?))
    && m.entryA.Some? && m.entryB.Some?
  }

  /** Exactly this score is stored, and the side with the higher one has won. */
  predicate Awards(m: Match, scoreA: Option<int>, scoreB: Option<int>) {
    && scoreA == Some(m.state.score.scoreA) && scoreB == Some(m.state.score.scoreB)
    && (scoreA.value > scoreB.value ==> m.winner == m.entryA)
    && (scoreA.value < scoreB.value ==> m.winner == m.entryB)
  }

  function RecordResult(
      rules: Rules, m: Match, scoreA: Option<int>, scoreB: Option<int>, sheet: seq<PeriodScore>, tiebreak: Option<Tiebreak>)
    : (r: Outcome<Match>)
    ensures r.Ok? ==> r.value.status.Finished? && WinnerFits(rules, r.value)
    ensures r.Ok? && !rules.completion.Sets? ==> Awards(r.value, scoreA, scoreB)
    ensures r.Ok? ==> r.value.state.score.periodA == 0 && r.value.state.score.periodB == 0
    ensures r.Ok? ==> forall p :: p in r.value.state.results <==> 1 <= p <= |sheet|
    ensures r.Ok? ==> forall p | 1 <= p <= |sheet| :: r.value.state.results[p] == sheet[p - 1]
    ensures r.Ok? ==> r.value.entryA == m.entryA && r.value.entryB == m.entryB && r.value.events == m.events
  {
    var score := FinalScore(rules, scoreA, scoreB, sheet);
    if !AcceptsSheet(m) || score.Refused? then Refused
    else
      var verdict := Judge(rules, m, score.value.0, score.value.1, tiebreak);
      if verdict.Refused? then Refused
      else
        var period := Max(1, if |sheet| > 0 then |sheet| else PeriodCount(rules));
        Ok(m.(status := Finished, paused := true,
              state := ScoreState(Snapshot(score.value.0, score.value.1, 0, 0, period), SheetResults(sheet)),
              winner := verdict.value.winner, tiebreak := verdict.value.tiebreak))
  }

  // ----- Correcting a result -----

  function CorrectResult(rules: Rules, m: Match, scoreA: int, scoreB: int): (r: Outcome<Match>)
    ensures r.Ok? ==> r.value.status.Finished? && WinnerFits(rules, r.value)
    ensures r.Ok? ==> Awards(r.value, Some(scoreA), Some(scoreB)) && (m.status.Finished? || m.status.Walkover?)
    ensures r.Ok? ==> r.value.state == m.state.(score := m.state.score.(scoreA := scoreA, scoreB := scoreB))
    ensures r.Ok? ==> r.value.entryA == m.entryA && r.value.entryB == m.entryB && r.value.events == m.events
  {
    var verdict := Judge(rules, m, scoreA, scoreB, m.tiebreak);
    if !(m.status.Finished? || m.status.Walkover?) || scoreA < 0 || scoreB < 0 || verdict.Refused? then Refused
    else
      Ok(m.(status := Finished,
            state := m.state.(score := m.state.score.(scoreA := scoreA, scoreB := scoreB)),
            winner := verdict.value.winner, tiebreak := verdict.value.tiebreak))
  }

}
