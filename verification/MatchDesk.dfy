/** The match row as the operator's actions update it, one transaction each. */
module MatchDesk {
  import opened Wrappers
  import opened Entries
  import opened Regulation
  import opened Statuses
  import opened LiveMatch
  import opened SetScores
  import opened MatchResults
  import OperatorLock

  class Desk {
    const rules: Rules
    const knockout: bool
    const entryA: Option<Entry>
    const entryB: Option<Entry>
    var status: Status
    var paused: bool
    var columns: Snapshot  // scoreA, scoreB, periodScoreA, periodScoreB, currentPeriod
    var periodResults: map<nat, PeriodScore>
    var events: seq<Event>
    var lastEventSequence: nat
    var winner: Option<Entry>
    var tiebreak: Option<Tiebreak>
    var lock: OperatorLock.Lock

    /** The stored row as a value. */
    function Row(): Match
      reads this
    {
      Match(status, knockout, entryA, entryB, paused, ScoreState(columns, periodResults),
            events, lastEventSequence, winner, tiebreak)
    }

    constructor (rules: Rules, knockout: bool, entryA: Option<Entry>, entryB: Option<Entry>)
      ensures Fresh(Row())
      ensures this.rules == rules
      ensures Row().knockout == knockout && Row().entryA == entryA && Row().entryB == entryB && lock == OperatorLock.UNLOCKED
    {
      this.rules, this.knockout, this.entryA, this.entryB := rules, knockout, entryA, entryB;
      status, paused := Scheduled, true;
      columns := Snapshot(0, 0, 0, 0, 1);
      periodResults, events, lastEventSequence := map[], [], 0;
      winner, tiebreak, lock := None, None, OperatorLock.UNLOCKED;
    }

    /** Score columns after a scoring event, and the result of the set it closes, if any. */
    static method DerivePoints(rules: Rules, before: ScoreState, side: Side, points: nat)
      returns (next: Snapshot, closed: Option<PeriodScore>)
      ensures
        var closedResults :=
          if closed.Some? then before.results[before.score.currentPeriod := closed.value] else before.results;
        ScoreState(next, closedResults) == AddPoints(rules, before, side, points)
    {
      var s := before.score;
      var nextA, nextB, nextPeriod := s.scoreA, s.scoreB, s.currentPeriod;
      var partialA := s.periodA + (if side.Home? then points else 0);
      var partialB := s.periodB + (if side.Away? then points else 0);
      closed := None;
      if rules.completion.Sets? {
        var decided := SetWinner(rules.completion, s.currentPeriod, partialA, partialB);
        nextA := nextA + (if decided == Some(Home) then 1 else 0);
        nextB := nextB + (if decided == Some(Away) then 1 else 0);
        var matchOver := nextA >= rules.completion.setsToWin || nextB >= rules.completion.setsToWin;
        if decided.Some? {
          closed := Some(PeriodScore(partialA, partialB));
          if !matchOver {
            partialA, partialB := 0, 0;
            nextPeriod := nextPeriod + 1;
          }
        }
      } else {
        nextA := nextA + (if side.Home? then points else 0);
        nextB := nextB + (if side.Away? then points else 0);
      }
      next := Snapshot(nextA, nextB, partialA, partialB, nextPeriod);
    }

    /** Starting needs a free lock, or one's own, and takes it. */
    method StartMatch(who: OperatorLock.Operator, now: int) returns (ok: bool)
      modifies this
      ensures ok <==> OperatorLock.MayClaim(old(lock), who, now, false) && Start(old(Row())).Ok?
      ensures Row() == if ok then Take(rules, old(Row()), StartStep) else old(Row())
      ensures lock == if ok then OperatorLock.Take(old(lock), OperatorLock.Claim(who, false, now)) else old(lock)
    {
      if entryA.None? || entryB.None? || !(status.Scheduled? || status.Postponed?) {
        return false;
      }
      if !OperatorLock.MayClaim(lock, who, now, false) {
        return false;
      }
      status, paused := Live, false;
      lock := OperatorLock.Lock(Some(who), Some(now));
      return true;
    }

    method ClaimOperator(who: OperatorLock.Operator, force: bool, now: int) returns (ok: bool)
      modifies this`lock
      ensures ok <==> OperatorLock.MayClaim(old(lock), who, now, force)
      ensures lock == OperatorLock.Take(old(lock), OperatorLock.Claim(who, force, now))
    {
      if !force && lock.holder.Some? && lock.holder != Some(who) &&
         lock.heartbeat.Some? && lock.heartbeat.value >= now - OperatorLock.OPERATOR_LOCK_MS
      {
        return false;
      }
      lock := OperatorLock.Lock(Some(who), Some(now));
      return true;
    }

    method ReleaseOperator(who: OperatorLock.Operator, now: int) returns (ok: bool)
      modifies this`lock
      ensures ok <==> OperatorLock.MayOperate(old(lock), who, now)
      ensures lock == OperatorLock.Take(old(lock), OperatorLock.Release(who, now))
    {
      var inTime := lock.heartbeat.Some? && lock.heartbeat.value >= now - OperatorLock.OPERATOR_LOCK_MS;
      if !inTime || lock.holder != Some(who) {
        return false;
      }
      lock := OperatorLock.UNLOCKED;
      return true;
    }

    method RegisterEvent(e: EventRequest, who: OperatorLock.Operator, now: int) returns (ok: bool)
      modifies this
      ensures ok <==> OperatorLock.MayOperate(old(lock), who, now) && Register(rules, old(Row()), e).Ok?
      ensures Row() == if ok then Take(rules, old(Row()), RegisterStep(e)) else old(Row())
      ensures lock == old(lock)
    {
      var row := Row();
      if !OperatorLock.MayOperate(lock, who, now) || !MayRegister(rules, row, e) {
        return false;
      }
      var previous := row.state.score;
      var next, closed := previous, None;
      match EffectOf(rules, e) {
        case Points(side, points) => next, closed := DerivePoints(rules, row.state, side, points);
        case Declared(a, b) => next := previous.(scoreA := a, scoreB := b);
        case Note =>
      }
      events := events +
        [Event(e.id, lastEventSequence + 1, e.side, EventPoints(e), IsDeclaration(rules, e),
               next.scoreA, next.scoreB, previous, false)];
      if closed.Some? {
        periodResults := periodResults[columns.currentPeriod := closed.value];
      }
      columns := next;
      lastEventSequence := lastEventSequence + 1;
      return true;
    }

    method UpdateClock(p: ClockPatch, who: OperatorLock.Operator, now: int) returns (ok: bool)
      modifies this
      ensures ok <==> OperatorLock.MayOperate(old(lock), who, now) && LiveMatch.UpdateClock(rules, old(Row()), p).Ok?
      ensures Row() == if ok then Take(rules, old(Row()), ClockStep(p)) else old(Row())
      ensures lock == old(lock)
    {
      if !OperatorLock.MayOperate(lock, who, now) || !MayUpdateClock(rules, Row(), p) {
        return false;
      }
      if Advances(Row(), p) {
        periodResults := periodResults[columns.currentPeriod := PeriodScore(columns.periodA, columns.periodB)];
        columns := columns.(periodA := 0, periodB := 0, currentPeriod := columns.currentPeriod + 1);
      }
      if !rules.hasClock {
        paused := false;
      } else if p.paused.Some? {
        paused := p.paused.value;
      }
      return true;
    }

    method UndoEvent(eventId: nat, restore: Snapshot, who: OperatorLock.Operator, now: int) returns (ok: bool)
      modifies this
      ensures ok <==> OperatorLock.MayOperate(old(lock), who, now) && Undo(rules, old(Row()), eventId, restore).Ok?
      ensures Row() == if ok then Take(rules, old(Row()), UndoStep(eventId, restore)) else old(Row())
      ensures lock == old(lock)
    {
      if !OperatorLock.MayOperate(lock, who, now) || !MayUndo(Row(), eventId, restore) {
        return false;
      }
      var i := LatestActive(events).value;
      var event := events[i];
      events := events[i := event.(undone := true)];
      if rules.completion.Sets? {
        if event.scoreA + event.scoreB > event.previous.scoreA + event.previous.scoreB {
          periodResults := periodResults - {event.previous.currentPeriod};
        }
      } else {
        periodResults := map p | p in periodResults && p < event.previous.currentPeriod :: periodResults[p];
      }
      columns := event.previous;
      return true;
    }

    method FinishMatch(
        period: nat, finalA: Option<int>, finalB: Option<int>, reasonGiven: bool, decision: Option<Tiebreak>,
        who: OperatorLock.Operator, now: int)
      returns (ok: bool)
      modifies this
      ensures
        var ended := Finish(rules, old(Row()), period, finalA, finalB, reasonGiven, decision);
        && (ok <==> OperatorLock.MayOperate(old(lock), who, now) && ended.Ok?)
        && Row() == if ok then ended.value else old(Row())
      ensures lock == old(lock)
    {
      if !OperatorLock.MayOperate(lock, who, now) {
        return false;
      }
      if !MayFinish(rules, Row(), period, finalA, finalB, reasonGiven, decision) {
        return false;
      }
      var verdict := Judge(rules, Row(), columns.scoreA, columns.scoreB, decision).value;
      if !rules.completion.Sets? {
        periodResults := periodResults[period := PeriodScore(columns.periodA, columns.periodB)];
      }
      status, paused, winner, tiebreak := Finished, true, verdict.winner, verdict.tiebreak;
      return true;
    }

    /** The loop that reads a sets sheet; it stops at the first set the regulation refuses. */
    static method ReadSets(c: Completion, sheet: seq<PeriodScore>) returns (r: Outcome<(int, int)>)
      requires c.Sets?
      ensures r == SheetScore(c, sheet)
    {
      var a, b := 0, 0;
      var i := 0;
      while i < |sheet|
        invariant 0 <= i <= |sheet|
        invariant SheetScore(c, sheet[..i]) == Ok((a, b))
      {
        assert sheet[..i + 1][..i] == sheet[..i];
        var set_ := sheet[i];
        if a >= c.setsToWin || b >= c.setsToWin || ValidSetWinner(c, i + 1, set_.scoreA, set_.scoreB).Refused? {
          PrefixRefused(c, sheet, i + 1);
          return Refused;
        }
        if ValidSetWinner(c, i + 1, set_.scoreA, set_.scoreB).value.Home? {
          a := a + 1;
        } else {
          b := b + 1;
        }
        i := i + 1;
      }
      assert sheet[..|sheet|] == sheet;
      return Ok((a, b));
    }

    static lemma {:induction false} PrefixRefused(c: Completion, sheet: seq<PeriodScore>, n: nat)
      requires c.Sets? && n <= |sheet| && SheetScore(c, sheet[..n]).Refused?
      ensures SheetScore(c, sheet).Refused?
      decreases |sheet|
    {
      if n == |sheet| {
        assert sheet[..n] == sheet;
      } else {
        assert sheet[..|sheet| - 1][..n] == sheet[..n];
        PrefixRefused(c, sheet[..|sheet| - 1], n);
      }
    }

    static method ReadFinalScore(rules: Rules, finalA: Option<int>, finalB: Option<int>, sheet: seq<PeriodScore>)
      returns (r: Outcome<(int, int)>)
      ensures r == FinalScore(rules, finalA, finalB, sheet)
    {
      if !WithinLimits(sheet) {
        return Refused;
      }
      if rules.completion.Sets? {
        r := ReadSets(rules.completion, sheet);
        if r.Ok? && (sheet == [] || Max(r.value.0, r.value.1) < rules.completion.setsToWin) {
          return Refused;
        }
      } else if finalA.None? || finalB.None? || finalA.value < 0 || finalB.value < 0 {
        return Refused;
      } else if sheet != [] && (SumPoints(sheet, Home) != finalA.value || SumPoints(sheet, Away) != finalB.value) {
        return Refused;
      } else {
        return Ok((finalA.value, finalB.value));
      }
    }

    method RecordSheet(
        finalA: Option<int>, finalB: Option<int>, sheet: seq<PeriodScore>, decision: Option<Tiebreak>)
      returns (ok: bool)
      modifies this
      ensures var recorded := RecordResult(rules, old(Row()), finalA, finalB, sheet, decision);
              (ok <==> recorded.Ok?) && Row() == if recorded.Ok? then recorded.value else old(Row())
      ensures lock == if ok then OperatorLock.UNLOCKED else old(lock)
    {
      var row := Row();
      var score := ReadFinalScore(rules, finalA, finalB, sheet);
      ok := false;
      if AcceptsSheet(row) && score.Ok? {
        var verdict := Judge(rules, row, score.value.0, score.value.1, decision);
        if verdict.Ok? {
          periodResults := SheetResults(sheet);
          var period := Max(1, if |sheet| > 0 then |sheet| else PeriodCount(rules));
          columns := Snapshot(score.value.0, score.value.1, 0, 0, period);
          status, paused, winner, tiebreak := Finished, true, verdict.value.winner, verdict.value.tiebreak;
          lock := OperatorLock.UNLOCKED;
          ok := true;
        }
      }
    }

    method Correct(correctedA: int, correctedB: int) returns (ok: bool)
      modifies this
      ensures var corrected := CorrectResult(rules, old(Row()), correctedA, correctedB);
              (ok <==> corrected.Ok?) && Row() == if corrected.Ok? then corrected.value else old(Row())
      ensures lock == old(lock)
    {
      if !(status.Finished? || status.Walkover?) || correctedA < 0 || correctedB < 0 {
        return false;
      }
      var verdict := Judge(rules, Row(), correctedA, correctedB, tiebreak);
      if verdict.Refused? {
        return false;
      }
      columns := columns.(scoreA := correctedA, scoreB := correctedB);
      status, winner, tiebreak := Finished, verdict.value.winner, verdict.value.tiebreak;
      return true;
    }
  }
}
