/** Every live run equals a replay of the steps that survive its undos. */
module MatchHistory {
  import opened Wrappers
  import opened Regulation
  import opened LiveMatch

  // ----- Replay of effects -----

  /** One surviving step: what it did to the score, and its position in the run. */
  datatype Kept = Kept(effect: Effect, at: nat)

  function Replay(rules: Rules, history: seq<Kept>): ScoreState {
    if history == [] then FRESH_STATE
    else Apply(rules, Replay(rules, history[..|history| - 1]), history[|history| - 1].effect)
  }

  /** Undo drops the latest event and every clock advance made after it. */
  function Rewind(history: seq<Kept>): seq<Kept> {
    if history == [] then []
    else if history[|history| - 1].effect.NextPeriod? then Rewind(history[..|history| - 1])
    else history[..|history| - 1]
  }

  function Surviving(rules: Rules, m: Match, steps: seq<Step>): seq<Kept> {
    if steps == [] then []
    else
      var n := |steps| - 1;
      var history, before := Surviving(rules, m, steps[..n]), Run(rules, m, steps[..n]);
      if Attempt(rules, before, steps[n]).Refused? then history
      else
        match steps[n]
        case RegisterStep(e) => history + [Kept(EffectOf(rules, e), n)]
        case ClockStep(p) => if Advances(before, p) then history + [Kept(NextPeriod, n)] else history
        case UndoStep(_, _) => Rewind(history)
        case _ => history
  }

  // ----- Invariants of the score -----

  /** Whether the service would accept this effect in this state. */
  predicate Acceptable(rules: Rules, st: ScoreState, effect: Effect) {
    match effect
    case Points(_, points) => points > 0 && (rules.completion.Sets? ==> !Decided(rules.completion, st.score))
    case Declared(_, _) => rules.completion.Board? || rules.completion.Result?
    case Note => true
    case NextPeriod => !rules.completion.Sets? && st.score.currentPeriod + 1 <= MaximumPeriod(rules)
  }

  predicate Legal(rules: Rules, history: seq<Kept>) {
    history == [] ||
    var prior := history[..|history| - 1];
    Legal(rules, prior) && Acceptable(rules, Replay(rules, prior), history[|history| - 1].effect)
  }

  /** Sets `side` won among the first `n` stored results. */
  function SetsWon(c: Completion, results: map<nat, PeriodScore>, n: nat, side: Side): nat
    requires c.Sets?
  {
    if n == 0 then 0
    else
      SetsWon(c, results, n - 1, side) +
      if n in results && SetWinner(c, n, results[n].scoreA, results[n].scoreB) == Some(side) then 1 else 0
  }

  /** The stored results are exactly sets 1 to `played`, each of them won by somebody. */
  ghost predicate ClosedSets(c: Completion, results: map<nat, PeriodScore>, played: nat)
    requires c.Sets?
  {
    && (forall p :: p in results <==> 1 <= p <= played)
    && forall p | p in results ::
         && results[p].scoreA >= 0 && results[p].scoreB >= 0
         && SetWinner(c, p, results[p].scoreA, results[p].scoreB).Some?
  }

  /** The set being played: not won yet, unless it is the one that decided the match. */
  ghost predicate OpenSet(c: Completion, st: ScoreState, played: nat)
    requires c.Sets?
  {
    var s := st.score;
    && s.periodA >= 0 && s.periodB >= 0
    && if Decided(c, s) then
         && s.currentPeriod == played
         && played in st.results
         && st.results[played] == PeriodScore(s.periodA, s.periodB)
       else
         && s.currentPeriod == played + 1
         && SetWinner(c, s.currentPeriod, s.periodA, s.periodB).None?
  }

  /** In sets mode the score columns are the tally of the stored sets. */
  ghost predicate SetsConsistent(c: Completion, st: ScoreState)
    requires c.Sets?
  {
    var s := st.score;
    && 0 <= s.scoreA <= c.setsToWin && 0 <= s.scoreB <= c.setsToWin
    && s.scoreA + s.scoreB < 2 * c.setsToWin
    && ClosedSets(c, st.results, s.scoreA + s.scoreB)
    && s.scoreA == SetsWon(c, st.results, s.scoreA + s.scoreB, Home)
    && s.scoreB == SetsWon(c, st.results, s.scoreA + s.scoreB, Away)
    && OpenSet(c, st, s.scoreA + s.scoreB)
  }

  /** Points `side` scored in the stored results of periods 1 to n. */
  function StoredPoints(results: map<nat, PeriodScore>, n: nat, side: Side): int {
    if n == 0 then 0
    else
      StoredPoints(results, n - 1, side) +
      if n !in results then 0 else if side.Home? then results[n].scoreA else results[n].scoreB
  }

  /** Outside sets mode the stored results are exactly those of the closed periods. */
  ghost predicate PeriodsClosed(st: ScoreState) {
    && st.score.currentPeriod >= 1
    && forall p :: p in st.results <==> 1 <= p < st.score.currentPeriod
  }

  /** In periods mode no point is lost: score = open partial + stored results. */
  predicate PointsConserved(st: ScoreState) {
    && st.score.currentPeriod >= 1
    && st.score.scoreA == st.score.periodA + StoredPoints(st.results, st.score.currentPeriod - 1, Home)
    && st.score.scoreB == st.score.periodB + StoredPoints(st.results, st.score.currentPeriod - 1, Away)
  }

  ghost predicate Consistent(rules: Rules, st: ScoreState) {
    && (if rules.completion.Sets? then SetsConsistent(rules.completion, st) else PeriodsClosed(st))
    && (rules.completion.Periods? ==> PointsConserved(st))
  }

  lemma {:induction false} SetsWonUnchanged(
      c: Completion, results: map<nat, PeriodScore>, results': map<nat, PeriodScore>, n: nat, side: Side)
    requires c.Sets?
    requires forall p | 1 <= p <= n :: (p in results <==> p in results') && (p in results ==> results[p] == results'[p])
    ensures SetsWon(c, results, n, side) == SetsWon(c, results', n, side)
  {
    if n > 0 {
      SetsWonUnchanged(c, results, results', n - 1, side);
    }
  }

  lemma {:induction false} StoredPointsUnchanged(
      results: map<nat, PeriodScore>, results': map<nat, PeriodScore>, n: nat, side: Side)
    requires forall p | 1 <= p <= n :: (p in results <==> p in results') && (p in results ==> results[p] == results'[p])
    ensures StoredPoints(results, n, side) == StoredPoints(results', n, side)
  {
    if n > 0 {
      StoredPointsUnchanged(results, results', n - 1, side);
    }
  }

  lemma {:induction false} CloseSet(
      c: Completion, results: map<nat, PeriodScore>, played: nat, last: PeriodScore, winner: Side)
    requires c.Sets? && ClosedSets(c, results, played)
    requires last.scoreA >= 0 && last.scoreB >= 0
    requires SetWinner(c, played + 1, last.scoreA, last.scoreB) == Some(winner)
    ensures
      var results' := results[played + 1 := last];
      && ClosedSets(c, results', played + 1)
      && SetsWon(c, results', played + 1, winner) == SetsWon(c, results, played, winner) + 1
      && SetsWon(c, results', played + 1, Opponent(winner)) == SetsWon(c, results, played, Opponent(winner))
  {
    var results' := results[played + 1 := last];
    SetsWonUnchanged(c, results, results', played, winner);
    SetsWonUnchanged(c, results, results', played, Opponent(winner));
  }

  lemma {:induction false} ClosingPointKeepsSetsConsistent(
      c: Completion, st: ScoreState, nextA: int, nextB: int, winner: Side)
    requires ValidSets(c) && SetsConsistent(c, st) && !Decided(c, st.score)
    requires nextA >= 0 && nextB >= 0 && SetWinner(c, st.score.currentPeriod, nextA, nextB) == Some(winner)
    ensures SetsConsistent(c, SetPoint(c, st, nextA, nextB))
  {
    var played := st.score.scoreA + st.score.scoreB;
    var st' := SetPoint(c, st, nextA, nextB);
    CloseSet(c, st.results, played, PeriodScore(nextA, nextB), winner);
    assert st'.score.scoreA + st'.score.scoreB == played + 1;
    assert OpenSet(c, st', played + 1);
  }

  lemma {:induction false} PointKeepsSetsConsistent(c: Completion, st: ScoreState, nextA: int, nextB: int)
    requires ValidSets(c) && SetsConsistent(c, st) && !Decided(c, st.score)
    requires nextA >= st.score.periodA && nextB >= st.score.periodB
    ensures SetsConsistent(c, SetPoint(c, st, nextA, nextB))
  {
    var winner := SetWinner(c, st.score.currentPeriod, nextA, nextB);
    if winner.Some? {
      ClosingPointKeepsSetsConsistent(c, st, nextA, nextB, winner.value);
    } else {
    }
  }

  lemma {:induction false} PointsKeepSetsConsistent(rules: Rules, st: ScoreState, side: Side, points: nat)
    requires Valid(rules) && rules.completion.Sets? && SetsConsistent(rules.completion, st)
    requires !Decided(rules.completion, st.score)
    ensures SetsConsistent(rules.completion, AddPoints(rules, st, side, points))
  {
    var nextA := st.score.periodA + if side.Home? then points else 0;
    var nextB := st.score.periodB + if side.Away? then points else 0;
    assert AddPoints(rules, st, side, points) == SetPoint(rules.completion, st, nextA, nextB);
    PointKeepsSetsConsistent(rules.completion, st, nextA, nextB);
  }

  /** Closing a period moves its partial into the stored results. */
  lemma {:induction false} NextPeriodKeepsConsistent(rules: Rules, st: ScoreState)
    requires !rules.completion.Sets? && Consistent(rules, st)
    ensures Consistent(rules, Apply(rules, st, NextPeriod))
  {
    var n := st.score.currentPeriod;
    var results' := st.results[n := PeriodScore(st.score.periodA, st.score.periodB)];
    StoredPointsUnchanged(st.results, results', n - 1, Home);
    StoredPointsUnchanged(st.results, results', n - 1, Away);
  }

  lemma {:induction false} EffectKeepsConsistent(rules: Rules, st: ScoreState, effect: Effect)
    requires Valid(rules) && Consistent(rules, st) && Acceptable(rules, st, effect)
    ensures Consistent(rules, Apply(rules, st, effect))
  {
    if effect.Points? && rules.completion.Sets? {
      PointsKeepSetsConsistent(rules, st, effect.side, effect.points);
    } else if effect.NextPeriod? {
      NextPeriodKeepsConsistent(rules, st);
    } 
  }

  lemma {:induction false} LegalHistoryConsistent(rules: Rules, history: seq<Kept>)
    requires Valid(rules) && Legal(rules, history)
    ensures Consistent(rules, Replay(rules, history))
  {
    if history != [] {
      var n := |history| - 1;
      LegalHistoryConsistent(rules, history[..n]);
      EffectKeepsConsistent(rules, Replay(rules, history[..n]), history[n].effect);
    }
  }

  // ----- Active events and the history -----

  function ActiveEvents(events: seq<Event>): seq<Event> {
    if events == [] then []
    else
      var last := events[|events| - 1];
      ActiveEvents(events[..|events| - 1]) + if last.undone then [] else [last]
  }

  /** Sequence numbers count the events ever registered, undone ones included. */
  predicate SequencesNeverReused(m: Match) {
    && m.lastSequence == |m.events|
    && forall i | 0 <= i < |m.events| :: m.events[i].sequence == i + 1
  }

  lemma {:induction false} LatestActiveIsLast(events: seq<Event>)
    requires forall i | 0 <= i < |events| :: events[i].sequence == i + 1
    ensures
      var active := ActiveEvents(events);
      var latest := LatestActive(events);
      && (latest.None? <==> active == [])
      && (latest.Some? ==>
            && active[|active| - 1] == events[latest.value]
            && ActiveEvents(events[latest.value := events[latest.value].(undone := true)]) == active[..|active| - 1])
  {
    if events != [] {
      var n := |events| - 1;
      LatestActiveIsLast(events[..n]);
      var latest := LatestActive(events);
      if latest.Some? {
        var marked := events[latest.value := events[latest.value].(undone := true)];
        if latest.value == n {
          assert marked[..n] == events[..n];
        } else {
          assert marked[..n] == events[..n][latest.value := events[latest.value].(undone := true)];
        }
      }
    }
  }

  /** Each active event is one kept step, and remembers the score just before that step. */
  ghost predicate Linked(rules: Rules, m: Match, steps: seq<Step>, history: seq<Kept>, active: seq<Event>)
    decreases |history|
  {
    if history == [] then active == []
    else
      var prior, last := history[..|history| - 1], history[|history| - 1];
      if last.effect.NextPeriod? then Linked(rules, m, steps, prior, active)
      else
        && active != []
        && last.at < |steps|
        && steps[last.at].RegisterStep?
        && var e := active[|active| - 1];
        && e.id == steps[last.at].request.id
        && MayRegister(rules, Run(rules, m, steps[..last.at]), steps[last.at].request)
        && Run(rules, m, steps[..last.at]).state == Replay(rules, prior)
        && e.previous == Replay(rules, prior).score
        && e.scoreA == Replay(rules, history).score.scoreA
        && e.scoreB == Replay(rules, history).score.scoreB
        && Linked(rules, m, steps, prior, active[..|active| - 1])
  }

  lemma {:induction false} LinkedExtends(
      rules: Rules, m: Match, steps: seq<Step>, step: Step, history: seq<Kept>, active: seq<Event>)
    requires Linked(rules, m, steps, history, active)
    ensures Linked(rules, m, steps + [step], history, active)
    decreases |history|
  {
    if history != [] {
      var prior, last := history[..|history| - 1], history[|history| - 1];
      if last.effect.NextPeriod? {
        LinkedExtends(rules, m, steps, step, prior, active);
      } else {
        assert (steps + [step])[..last.at] == steps[..last.at];
        LinkedExtends(rules, m, steps, step, prior, active[..|active| - 1]);
      }
    }
  }

  /** Outside sets mode, what lies below the period of the rewound state is untouched by what is rewound. */
  lemma {:induction false} RewindKeepsLowerPeriods(rules: Rules, history: seq<Kept>)
    requires Valid(rules) && !rules.completion.Sets? && Legal(rules, history)
    ensures
      var st, back := Replay(rules, history), Replay(rules, Rewind(history));
      && back.score.currentPeriod <= st.score.currentPeriod
      && (forall p | p in back.results :: p in st.results && st.results[p] == back.results[p])
  {
    if history != [] {
      LegalHistoryConsistent(rules, history);
      var n := |history| - 1;
      if history[n].effect.NextPeriod? {
        RewindKeepsLowerPeriods(rules, history[..n]);
        LegalHistoryConsistent(rules, history[..n]);
        LegalHistoryConsistent(rules, Rewind(history[..n])) by { RewindLegal(rules, history[..n]); }
      }
    }
  }

  lemma {:induction false} RewindLegal(rules: Rules, history: seq<Kept>)
    requires Legal(rules, history)
    ensures Legal(rules, Rewind(history))
  {
    if history != [] && history[|history| - 1].effect.NextPeriod? {
      RewindLegal(rules, history[..|history| - 1]);
    }
  }

  /** The results before an event come back when exactly its own consequences are removed. */
  lemma {:induction false} ResultsComeBack(rules: Rules, history: seq<Kept>, e: Event)
    requires Valid(rules) && Legal(rules, history)
    requires e.previous == Replay(rules, Rewind(history)).score
    requires rules.completion.Sets? ==>
      var after := Replay(rules, history).score;
      history != [] && !history[|history| - 1].effect.NextPeriod? && e.scoreA == after.scoreA && e.scoreB == after.scoreB
    ensures ResultsWithout(rules, Replay(rules, history).results, e) == Replay(rules, Rewind(history)).results
  {
    RewindLegal(rules, history);
    LegalHistoryConsistent(rules, Rewind(history));
    if !rules.completion.Sets? {
      LowerPeriodsComeBack(rules, history, e);
    }
  }

  lemma {:induction false} LowerPeriodsComeBack(rules: Rules, history: seq<Kept>, e: Event)
    requires Valid(rules) && !rules.completion.Sets? && Legal(rules, history) && Legal(rules, Rewind(history))
    requires e.previous == Replay(rules, Rewind(history)).score
    ensures ResultsWithout(rules, Replay(rules, history).results, e) == Replay(rules, Rewind(history)).results
  {
    LegalHistoryConsistent(rules, Rewind(history));
    LegalHistoryConsistent(rules, history);
    RewindKeepsLowerPeriods(rules, history);
  }

  ghost predicate ReturnsTo(rules: Rules, m: Match, steps: seq<Step>, eventId: nat, st: ScoreState, at: nat) {
    && at < |steps| && steps[at].RegisterStep? && steps[at].request.id == eventId
    && MayRegister(rules, Run(rules, m, steps[..at]), steps[at].request)
    && Run(rules, m, steps[..at]).state == st
  }

  /** Undoing the latest active event rebuilds exactly the score state before it. */
  lemma {:induction false} UndoRebuilds(
      rules: Rules, m: Match, steps: seq<Step>, history: seq<Kept>, active: seq<Event>)
    requires Valid(rules) && Legal(rules, history)
    requires Linked(rules, m, steps, history, active) && active != []
    ensures
      var e, back := active[|active| - 1], Replay(rules, Rewind(history));
      && e.previous == back.score
      && (rules.completion.Sets? ==>
            && !history[|history| - 1].effect.NextPeriod?
            && e.scoreA == Replay(rules, history).score.scoreA
            && e.scoreB == Replay(rules, history).score.scoreB)
      && Linked(rules, m, steps, Rewind(history), active[..|active| - 1])
      && exists at :: ReturnsTo(rules, m, steps, e.id, back, at)
    decreases |history|
  {
    var n := |history| - 1;
    if history[n].effect.NextPeriod? {
      UndoRebuilds(rules, m, steps, history[..n], active);
    } else {
      assert ReturnsTo(rules, m, steps, active[|active| - 1].id, Replay(rules, history[..n]), history[n].at);
    }
  }

  // ----- Every run -----

  /** The match is what the history makes of it, and the history is linked to the steps. */
  ghost predicate Tells(rules: Rules, m: Match, steps: seq<Step>, history: seq<Kept>, now: Match) {
    && now.state == Replay(rules, history)
    && Legal(rules, history)
    && Linked(rules, m, steps, history, ActiveEvents(now.events))
    && SequencesNeverReused(now)
  }

  /** What holds after any number of steps from a newly created match. */
  ghost predicate Explained(rules: Rules, m: Match, steps: seq<Step>) {
    Tells(rules, m, steps, Surviving(rules, m, steps), Run(rules, m, steps))
  }

  /** One more step, from the match and the history before it. */
  lemma {:induction false} OneMoreStep(rules: Rules, m: Match, steps: seq<Step>, step: Step)
    ensures Run(rules, m, steps + [step]) == Take(rules, Run(rules, m, steps), step)
    ensures
      var history := Surviving(rules, m, steps);
      Attempt(rules, Run(rules, m, steps), step).Ok? ==>
        (step.RegisterStep? ==>
           Surviving(rules, m, steps + [step]) == history + [Kept(EffectOf(rules, step.request), |steps|)]) &&
        (step.UndoStep? ==> Surviving(rules, m, steps + [step]) == Rewind(history))
  {
    assert (steps + [step])[..|steps|] == steps;
  }

  /** The event that an accepted request with this effect stores. */
  ghost predicate Records(rules: Rules, before: Match, id: nat, effect: Effect, after: Match, e: Event) {
    && Acceptable(rules, before.state, effect) && !effect.NextPeriod?
    && after.events == before.events + [e] && after.state == Apply(rules, before.state, effect)
    && after.lastSequence == before.lastSequence + 1 && e.sequence == before.lastSequence + 1
    && e.id == id && e.previous == before.state.score && !e.undone
    && e.scoreA == after.state.score.scoreA && e.scoreB == after.state.score.scoreB
  }

  lemma {:induction false} RegisterRecords(rules: Rules, before: Match, request: EventRequest) returns (e: Event)
    requires MayRegister(rules, before, request)
    ensures Records(rules, before, request.id, EffectOf(rules, request), Register(rules, before, request).value, e)
  {
    var after := Register(rules, before, request).value;
    e := after.events[|before.events|];
    assert after.events == before.events + [e];
  }

  lemma {:induction false} KeptIsLegal(rules: Rules, history: seq<Kept>, last: Kept)
    requires Legal(rules, history) && Acceptable(rules, Replay(rules, history), last.effect)
    ensures Legal(rules, history + [last])
    ensures Replay(rules, history + [last]) == Apply(rules, Replay(rules, history), last.effect)
  {
    assert (history + [last])[..|history|] == history;
  }

  lemma {:induction false} KeptIsLinked(
      rules: Rules, m: Match, steps: seq<Step>, step: Step, history: seq<Kept>, last: Kept, active: seq<Event>, e: Event)
    requires Linked(rules, m, steps, history, active) && !last.effect.NextPeriod? && last.at == |steps|
    requires step.RegisterStep? && step.request.id == e.id && Run(rules, m, steps).state == Replay(rules, history)
    requires MayRegister(rules, Run(rules, m, steps), step.request)
    requires e.previous == Replay(rules, history).score
    requires
      var after := Replay(rules, history + [last]).score;
      e.scoreA == after.scoreA && e.scoreB == after.scoreB
    ensures Linked(rules, m, steps + [step], history + [last], active + [e])
  {
    assert (steps + [step])[..|steps|] == steps && (history + [last])[..|history|] == history;
    assert (active + [e])[..|active|] == active;
    LinkedExtends(rules, m, steps, step, history, active);
  }

  /** What an accepted event adds to the history and to the active events. */
  lemma {:induction false} RegisterTells(
      rules: Rules, m: Match, steps: seq<Step>, history: seq<Kept>, before: Match, request: EventRequest, effect: Effect,
      after: Match, e: Event)
    requires Tells(rules, m, steps, history, before) && before == Run(rules, m, steps)
    requires MayRegister(rules, before, request) && Records(rules, before, request.id, effect, after, e)
    ensures Tells(rules, m, steps + [RegisterStep(request)], history + [Kept(effect, |steps|)], after)
  {
    var last := Kept(effect, |steps|);
    ActiveEventAdded(before.events, e);
    KeptIsLegal(rules, history, last);
    KeptIsLinked(rules, m, steps, RegisterStep(request), history, last, ActiveEvents(before.events), e);
  }

  lemma {:induction false} ActiveEventAdded(events: seq<Event>, e: Event)
    requires !e.undone
    ensures
      ActiveEvents(events + [e]) == ActiveEvents(events) + [e]
  {
    assert (events + [e])[..|events|] == events;
  }

  lemma {:induction false} RegisterExplained(rules: Rules, m: Match, steps: seq<Step>, step: Step)
    requires Valid(rules) && Explained(rules, m, steps) && step.RegisterStep?
    requires MayRegister(rules, Run(rules, m, steps), step.request)
    ensures Explained(rules, m, steps + [step])
  {
    var before := Run(rules, m, steps);
    OneMoreStep(rules, m, steps, step);
    var e := RegisterRecords(rules, before, step.request);
    RegisterTells(rules, m, steps, Surviving(rules, m, steps), before, step.request, EffectOf(rules, step.request),
                  Register(rules, before, step.request).value, e);
  }

  /** An undo takes the latest event and what followed it out of the history. */
  lemma {:induction false} UndoTells(
      rules: Rules, m: Match, steps: seq<Step>, history: seq<Kept>, before: Match, step: Step)
    requires Valid(rules) && Tells(rules, m, steps, history, before)
    requires step.UndoStep? && MayUndo(before, step.eventId, step.restore)
    ensures
      var after := Undo(rules, before, step.eventId, step.restore).value;
      && Tells(rules, m, steps + [step], Rewind(history), after)
      && exists at :: ReturnsTo(rules, m, steps, step.eventId, after.state, at)
  {
    var active, after := ActiveEvents(before.events), Undo(rules, before, step.eventId, step.restore).value;
    UndoneMatch(rules, before, step.eventId, step.restore);
    UndoRebuilds(rules, m, steps, history, active);
    ResultsComeBack(rules, history, active[|active| - 1]);
    assert after.state == Replay(rules, Rewind(history));
    RewindLegal(rules, history);
    LinkedExtends(rules, m, steps, step, Rewind(history), active[..|active| - 1]);
  }

  /** What an undo makes of the match, in terms of its last active event. */
  lemma {:induction false} UndoneMatch(rules: Rules, before: Match, eventId: nat, restore: Snapshot)
    requires SequencesNeverReused(before) && MayUndo(before, eventId, restore)
    ensures
      var active, after := ActiveEvents(before.events), Undo(rules, before, eventId, restore).value;
      && active != [] && active[|active| - 1].id == eventId
      && ActiveEvents(after.events) == active[..|active| - 1] && SequencesNeverReused(after)
      && var e := active[|active| - 1];
      && after.state == ScoreState(e.previous, ResultsWithout(rules, before.state.results, e))
  {
    LatestActiveIsLast(before.events);
  }

  lemma {:induction false} UndoExplained(rules: Rules, m: Match, steps: seq<Step>, step: Step)
    requires Valid(rules) && Explained(rules, m, steps) && step.UndoStep?
    requires MayUndo(Run(rules, m, steps), step.eventId, step.restore)
    ensures Explained(rules, m, steps + [step])
    ensures exists at :: ReturnsTo(rules, m, steps, step.eventId, Run(rules, m, steps + [step]).state, at)
  {
    OneMoreStep(rules, m, steps, step);
    UndoTells(rules, m, steps, Surviving(rules, m, steps), Run(rules, m, steps), step);
  }

  lemma {:induction false} ClockExplained(rules: Rules, m: Match, steps: seq<Step>, step: Step)
    requires Valid(rules) && Explained(rules, m, steps) && step.ClockStep?
    requires MayUpdateClock(rules, Run(rules, m, steps), step.patch)
    ensures Explained(rules, m, steps + [step])
  {
    var steps' := steps + [step];
    assert steps'[..|steps|] == steps;
    var history, history' := Surviving(rules, m, steps), Surviving(rules, m, steps');
    assert history' != history ==> history'[..|history|] == history;
    LinkedExtends(rules, m, steps, step, history, ActiveEvents(Run(rules, m, steps).events));
  }

  lemma {:induction false} EveryRunExplained(rules: Rules, m: Match, steps: seq<Step>)
    requires Valid(rules) && Fresh(m)
    ensures Explained(rules, m, steps)
  {
    if steps != [] {
      var n := |steps| - 1;
      var before, step := steps[..n], steps[n];
      EveryRunExplained(rules, m, before);
      assert steps == before + [step];
      if Attempt(rules, Run(rules, m, before), step).Refused? || step.PostponeStep? || step.StartStep? {
        LinkedExtends(rules, m, before, step, Surviving(rules, m, before), ActiveEvents(Run(rules, m, before).events));
      } else if step.RegisterStep? {
        RegisterExplained(rules, m, before, step);
      } else if step.UndoStep? {
        UndoExplained(rules, m, before, step);
      } else {
        ClockExplained(rules, m, before, step);
      }
    }
  }

  /** The score columns and period results are those of a replay of the surviving history. */
  lemma {:induction false} ScoreIsReplayOfSurvivingHistory(rules: Rules, m: Match, steps: seq<Step>)
    requires Valid(rules) && Fresh(m)
    ensures Run(rules, m, steps).state == Replay(rules, Surviving(rules, m, steps))
    ensures SequencesNeverReused(Run(rules, m, steps))
  {
    EveryRunExplained(rules, m, steps);
  }

  /**
   * An accepted undo puts scores, partials, current period and period results back to
   * what they were just before the event was registered, whatever happened in between.
   */
  lemma {:induction false} UndoReturnsToBeforeTheEvent(
      rules: Rules, m: Match, steps: seq<Step>, eventId: nat, restore: Snapshot)
    requires Valid(rules) && Fresh(m)
    requires MayUndo(Run(rules, m, steps), eventId, restore)
    ensures exists at ::
      && 0 <= at < |steps|
      && steps[at].RegisterStep?
      && steps[at].request.id == eventId
      && MayRegister(rules, Run(rules, m, steps[..at]), steps[at].request)
      && Run(rules, m, steps[..at]).state == Run(rules, m, steps + [UndoStep(eventId, restore)]).state
  {
    EveryRunExplained(rules, m, steps);
    UndoExplained(rules, m, steps, UndoStep(eventId, restore));
    var at: nat :| ReturnsTo(rules, m, steps, eventId, Run(rules, m, steps + [UndoStep(eventId, restore)]).state, at);
    assert 0 <= at < |steps|;
  }

  /** Sets mode and periods mode: the score invariants hold after every run, undos included. */
  lemma {:induction false} EveryRunConsistent(rules: Rules, m: Match, steps: seq<Step>)
    requires Valid(rules) && Fresh(m)
    ensures Consistent(rules, Run(rules, m, steps).state)
  {
    EveryRunExplained(rules, m, steps);
    LegalHistoryConsistent(rules, Surviving(rules, m, steps));
  }
}
