/** Ending a knockout match is the result the bracket takes. */
module BracketMatches {
  import opened Wrappers
  import opened Regulation
  import opened Statuses
  import opened KnockoutPhase
  import opened BracketResults
  import LiveMatch
  import MatchResults
  import BracketRuns
  import BracketPlayout

  /** A live match and a row of the bracket show the same stored match. */
  predicate Mirrors(m: LiveMatch.Match, row: KoMatch) {
    && m.knockout && m.status == row.status && m.winner == row.winner
    && m.entryA == row.entryA && m.entryB == row.entryB
  }

  ghost predicate MirrorsAt(m: LiveMatch.Match, b: Bracket, ref: Ref) {
    Lookup(b, ref).Some? && Mirrors(m, Lookup(b, ref).value)
  }

  /** The match ended with a winner, and the bracket stores that as a result. */
  ghost predicate IsDecidedIn(m: LiveMatch.Match, ended: LiveMatch.Match, b: Bracket, ref: Ref, date: Date) {
    var step := BracketRuns.Decide(ref, ended.winner, Finished, date);
    && BracketPlayout.IsResult(step) && BracketRuns.Enabled(b, step)
    && MirrorsAt(ended, BracketRuns.Stored(b, step), ref)
  }

  /** The whistle in a knockout match always gives the bracket a winner among the entrants. */
  lemma {:induction false} FinishIsResult(
      rules: Rules, m: LiveMatch.Match, period: nat, scoreA: Option<int>, scoreB: Option<int>, reasonGiven: bool,
      tiebreak: Option<LiveMatch.Tiebreak>, b: Bracket, ref: Ref, date: Date)
    requires MirrorsAt(m, b, ref) && m.entryA.Some? && m.entryB.Some?
    requires MatchResults.Finish(rules, m, period, scoreA, scoreB, reasonGiven, tiebreak).Ok?
    ensures
      IsDecidedIn(m, MatchResults.Finish(rules, m, period, scoreA, scoreB, reasonGiven, tiebreak).value, b, ref, date)
  {
  }

  /** So does an accepted score sheet. */
  lemma {:induction false} SheetIsResult(
      rules: Rules, m: LiveMatch.Match, scoreA: Option<int>, scoreB: Option<int>, sheet: seq<LiveMatch.PeriodScore>,
      tiebreak: Option<LiveMatch.Tiebreak>, b: Bracket, ref: Ref, date: Date)
    requires MirrorsAt(m, b, ref) && MatchResults.RecordResult(rules, m, scoreA, scoreB, sheet, tiebreak).Ok?
    ensures IsDecidedIn(m, MatchResults.RecordResult(rules, m, scoreA, scoreB, sheet, tiebreak).value, b, ref, date)
  {
  }

  /** An accepted correction is the bracket's correction, refused exactly when something downstream has been touched. */
  lemma {:induction false} CorrectionIsCorrection(
      rules: Rules, m: LiveMatch.Match, scoreA: int, scoreB: int, b: Bracket, ref: Ref, date: Date)
    requires MirrorsAt(m, b, ref) && m.entryA.Some? && m.entryB.Some?
    requires MatchResults.CorrectResult(rules, m, scoreA, scoreB).Ok?
    ensures
      var corrected := MatchResults.CorrectResult(rules, m, scoreA, scoreB).value;
      var step := BracketRuns.Correct(ref, corrected.winner, date);
      && corrected.winner.Some?
      && (BracketRuns.Enabled(b, step) <==> DownstreamUntouched(b, ref))
      && (BracketRuns.Enabled(b, step) ==> MirrorsAt(corrected, BracketRuns.Stored(b, step), ref))
  {
  }
}
