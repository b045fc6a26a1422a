/**
 * The live match: scoring events, clock advances and undo as functions on the stored row.
 *
 * A refused operation is an aborted transaction and leaves the row as it was.
 */
module LiveMatch {
  import opened Wrappers
  import opened Entries
  import NatSets
  import opened Regulation
  import opened Statuses

  datatype EventSide = Of(side: Side) | Neutral

  /** The five score columns, which is also what an event stores as its previous score. */
  datatype Snapshot = Snapshot(scoreA: int, scoreB: int, periodA: int, periodB: int, currentPeriod: nat)

  datatype PeriodScore = PeriodScore(scoreA: int, scoreB: int)

  /** `declares` marks a result declared outright, which sets the score instead of adding to it. */
  datatype Event = Event(
    id: nat,
    sequence: nat,
    side: EventSide,
    points: nat,
    declares: bool,
    scoreA: int,
    scoreB: int,
    previous: Snapshot,
    undone: bool)

  /** Score columns together with the stored period results. */
  datatype ScoreState = ScoreState(score: Snapshot, results: map<nat, PeriodScore>)

  datatype Tiebreak = Tiebreak(administrative: bool, scoreA: int, scoreB: int, winner: Option<Entry>)

  datatype Match = Match(
    status: Status,
    knockout: bool,
    entryA: Option<Entry>,
    entryB: Option<Entry>,
    paused: bool,
    state: ScoreState,
    events: seq<Event>,
    lastSequence: nat,
    winner: Option<Entry>,
    tiebreak: Option<Tiebreak>)

  datatype SecondaryRule = SecondaryRule(scorePoints: nat, requiresSide: bool, allowedWhenStopped: bool)

  /** Score columns the client echoes; any that is present must agree with the server. */
  datatype ScorePatch = ScorePatch(
    scoreA: Option<int>, scoreB: Option<int>, periodA: Option<int>, periodB: Option<int>, currentPeriod: Option<int>)

  datatype PeriodResult = PeriodResult(period: nat, score: PeriodScore)

  /** What the client says the event came to; any that is present must agree with the server. */
  datatype EventEcho = EventEcho(scoreA: Option<int>, scoreB: Option<int>, closed: Option<PeriodResult>)

  /** The athlete the event is put down to; whether the entrant's roster has the athlete is looked up elsewhere. */
  datatype Author = Unnamed | Named(onRoster: bool)

  /** A request to register an event; the rules are those its label names in the regulation. */
  datatype EventRequest = EventRequest(
    id: nat,
    scoring: Option<nat>,
    secondary: Option<SecondaryRule>,
    declaresResult: bool,
    side: EventSide,
    clientPoints: Option<nat>,
    period: Option<nat>,
    patch: ScorePatch,
    echo: EventEcho,
    author: Author)

  /** A change of the clock; `results` is what the client takes all period results to be afterwards. */
  datatype ClockPatch = ClockPatch(
    currentPeriod: Option<nat>,
    periodA: Option<int>,
    periodB: Option<int>,
    paused: Option<bool>,
    runningSince: bool,
    results: Option<seq<PeriodResult>>)

  // ----- What one step does to the score -----

  /** The part of an accepted step that matters to the score. */
  datatype Effect =
    | Points(side: Side, points: nat)
    | Declared(scoreA: int, scoreB: int)
    | Note
    | NextPeriod

  predicate Decided(c: Completion, s: Snapshot)
    requires c.Sets?
  {
    s.scoreA >= c.setsToWin || s.scoreB >= c.setsToWin
  }

  /** The open set moves to nextA-nextB: the set, and then the match, may be over. */
  function SetPoint(c: Completion, st: ScoreState, nextA: int, nextB: int): ScoreState
    requires c.Sets?
  {
    var s := st.score;
    var winner := SetWinner(c, s.currentPeriod, nextA, nextB);
    if winner.None? then
      st.(score := s.(periodA := nextA, periodB := nextB))
    else
      var scored := s.(scoreA := s.scoreA + (if winner.value.Home? then 1 else 0),
                       scoreB := s.scoreB + (if winner.value.Away? then 1 else 0));
      var over := Decided(c, scored);
      ScoreState(
        scored.(periodA := if over then nextA else 0,
                periodB := if over then nextB else 0,
                currentPeriod := if over then s.currentPeriod else s.currentPeriod + 1),
        st.results[s.currentPeriod := PeriodScore(nextA, nextB)])
  }

  function AddPoints(rules: Rules, st: ScoreState, side: Side, points: nat): ScoreState {
    var s := st.score;
    var nextA := s.periodA + if side.Home? then points else 0;
    var nextB := s.periodB + if side.Away? then points else 0;
    if rules.completion.Sets? then
      SetPoint(rules.completion, st, nextA, nextB)
    else
      st.(score := s.(scoreA := s.scoreA + (if side.Home? then points else 0),
                      scoreB := s.scoreB + (if side.Away? then points else 0),
                      periodA := nextA,
                      periodB := nextB))
  }

  function Apply(rules: Rules, st: ScoreState, effect: Effect): ScoreState {
    match effect
    case Points(side, points) => AddPoints(rules, st, side, points)
    case Declared(scoreA, scoreB) => st.(score := st.score.(scoreA := scoreA, scoreB := scoreB))
    case Note => st
    case NextPeriod =>
      ScoreState(
        st.score.(periodA := 0, periodB := 0, currentPeriod := st.score.currentPeriod + 1),
        st.results[st.score.currentPeriod := PeriodScore(st.score.periodA, st.score.periodB)])
  }

  // ----- Registering an event -----

  predicate IsDeclaration(rules: Rules, e: EventRequest) {
    (rules.completion.Board? || rules.completion.Result?) && e.declaresResult
  }

  function EventPoints(e: EventRequest): nat {
    if e.scoring.Some? then e.scoring.value
    else if e.secondary.Some? then e.secondary.value.scorePoints
    else 0
  }

  function EffectOf(rules: Rules, e: EventRequest): Effect
    requires e.side.Neutral? ==> EventPoints(e) == 0
  {
    if IsDeclaration(rules, e) then
      var win := if rules.completion.Board? then rules.completion.winPoints else 1;
      var draw := if rules.completion.Board? then rules.completion.drawPoints else 0;
      match e.side
      case Neutral => Declared(draw, draw)
      case Of(Home) => Declared(win, 0)
      case Of(Away) => Declared(0, win)
    else if EventPoints(e) > 0 then
      Points(e.side.side, EventPoints(e))
    else
      Note
  }

  predicate Echoes(sent: Option<int>, derived: int) {
    sent.None? || sent.value == derived
  }

  predicate PatchAgrees(patch: ScorePatch, s: Snapshot) {
    && Echoes(patch.scoreA, s.scoreA)
    && Echoes(patch.scoreB, s.scoreB)
    && Echoes(patch.periodA, s.periodA)
    && Echoes(patch.periodB, s.periodB)
    && Echoes(patch.currentPeriod, s.currentPeriod)
  }

  /** The period an effect closes, as its result is then stored. */
  function ClosedBy(rules: Rules, st: ScoreState, effect: Effect): Option<PeriodResult> {
    if rules.completion.Sets? && effect.Points? then
      var nextA := st.score.periodA + if effect.side.Home? then effect.points else 0;
      var nextB := st.score.periodB + if effect.side.Away? then effect.points else 0;
      if SetWinner(rules.completion, st.score.currentPeriod, nextA, nextB).Some? then
        Some(PeriodResult(st.score.currentPeriod, PeriodScore(nextA, nextB)))
      else None
    else None
  }

  predicate EchoAgrees(echo: EventEcho, s: Snapshot, closed: Option<PeriodResult>) {
    Echoes(echo.scoreA, s.scoreA) && Echoes(echo.scoreB, s.scoreB) && (echo.closed.Some? ==> echo.closed == closed)
  }

  /** An author stands on a side whose participant is known and whose roster has the athlete. */
  predicate MayAuthor(m: Match, e: EventRequest) {
    e.author.Named? ==>
      && !e.side.Neutral?
      && (if e.side.side.Home? then m.entryA.Some? else m.entryB.Some?)
      && e.author.onRoster
  }

  predicate MayRegister(rules: Rules, m: Match, e: EventRequest) {
    && m.status.Live?
    && (forall i | 0 <= i < |m.events| :: m.events[i].id != e.id)
    && (e.scoring.Some? || e.secondary.Some? || IsDeclaration(rules, e))
    && (e.scoring.Some? ==> !e.side.Neutral?)
    && (e.secondary.Some? && e.secondary.value.requiresSide ==> !e.side.Neutral?)
    && ((e.scoring.Some? || IsDeclaration(rules, e)) && rules.hasClock ==> !m.paused)
    && (e.secondary.Some? && rules.hasClock && !e.secondary.value.allowedWhenStopped ==> !m.paused)
    && (e.side.Neutral? ==> EventPoints(e) == 0)
    && (e.clientPoints.Some? ==> e.clientPoints.value == EventPoints(e))
    && (e.period.Some? ==> e.period.value == m.state.score.currentPeriod)
    && (IsDeclaration(rules, e) && e.side.Neutral? ==> rules.completion.allowDraw)
    && (rules.completion.Sets? && EventPoints(e) > 0 ==> !Decided(rules.completion, m.state.score))
    && PatchAgrees(e.patch, Apply(rules, m.state, EffectOf(rules, e)).score)
    && EchoAgrees(e.echo, Apply(rules, m.state, EffectOf(rules, e)).score, ClosedBy(rules, m.state, EffectOf(rules, e)))
    && MayAuthor(m, e)
  }

  function Register(rules: Rules, m: Match, e: EventRequest): Outcome<Match> {
    if !MayRegister(rules, m, e) then
      Refused
    else
      var after := Apply(rules, m.state, EffectOf(rules, e));
      var event := Event(e.id, m.lastSequence + 1, e.side, EventPoints(e), IsDeclaration(rules, e),
                         after.score.scoreA, after.score.scoreB, m.state.score, false);
      Ok(m.(state := after, events := m.events + [event], lastSequence := m.lastSequence + 1))
  }

  // ----- The clock -----

  function MaximumPeriod(rules: Rules): int {
    PeriodCount(rules) + if rules.completion.Periods? then rules.completion.overtimePeriods else 0
  }

  predicate Advances(m: Match, p: ClockPatch) {
    p.currentPeriod == Some(m.state.score.currentPeriod + 1)
  }

  /** The stored results in the order of their periods. */
  function ResultList(results: map<nat, PeriodScore>): seq<PeriodResult> {
    ResultsAt(results, NatSets.Sorted(results.Keys))
  }

  function ResultsAt(results: map<nat, PeriodScore>, periods: seq<nat>): (list: seq<PeriodResult>)
    requires forall p | p in periods :: p in results
    ensures |list| == |periods|
    ensures forall i | 0 <= i < |list| :: list[i] == PeriodResult(periods[i], results[periods[i]])
  {
    if periods == [] then []
    else
      var last := periods[|periods| - 1];
      ResultsAt(results, periods[..|periods| - 1]) + [PeriodResult(last, results[last])]
  }

  function AfterClock(rules: Rules, m: Match, p: ClockPatch): ScoreState {
    if Advances(m, p) then Apply(rules, m.state, NextPeriod) else m.state
  }

  predicate MayUpdateClock(rules: Rules, m: Match, p: ClockPatch) {
    && m.status.Live?
    && (rules.hasClock && p.paused == Some(false) ==> p.runningSince)
    && (p.currentPeriod.Some? ==> p.currentPeriod.value == m.state.score.currentPeriod || Advances(m, p))
    && (if Advances(m, p) then
          && !rules.completion.Sets?
          && p.currentPeriod.value <= MaximumPeriod(rules)
          && p.periodA == Some(0) && p.periodB == Some(0)
        else
          Echoes(p.periodA, m.state.score.periodA) && Echoes(p.periodB, m.state.score.periodB))
    && (p.results.Some? ==> p.results.value == ResultList(AfterClock(rules, m, p).results))
  }

  function UpdateClock(rules: Rules, m: Match, p: ClockPatch): Outcome<Match> {
    if !MayUpdateClock(rules, m, p) then
      Refused
    else
      var paused := if !rules.hasClock then false else if p.paused.Some? then p.paused.value else m.paused;
      Ok(m.(paused := paused, state := AfterClock(rules, m, p)))
  }

  // ----- Undo -----

  /** Index of the active event with the highest sequence number. */
  function LatestActive(events: seq<Event>): (r: Option<nat>)
    ensures r.Some? ==> r.value < |events| && !events[r.value].undone
  {
    if events == [] then None
    else
      var last := |events| - 1;
      var before := LatestActive(events[..last]);
      if !events[last].undone && (before.None? || events[before.value].sequence <= events[last].sequence) then
        Some(last)
      else
        before
  }

  /** Undo looks at the operator lock and the event log, not at the status of the match. */
  predicate MayUndo(m: Match, eventId: nat, restore: Snapshot) {
    var latest := LatestActive(m.events);
    && latest.Some?
    && m.events[latest.value].id == eventId
    && restore == m.events[latest.value].previous
  }

  /** The stored results once the event that led away from `previous` is undone. */
  function ResultsWithout(rules: Rules, results: map<nat, PeriodScore>, e: Event): map<nat, PeriodScore> {
    if rules.completion.Sets? then
      if e.scoreA + e.scoreB > e.previous.scoreA + e.previous.scoreB then
        results - {e.previous.currentPeriod}
      else
        results
    else
      map p | p in results && p < e.previous.currentPeriod :: results[p]
  }

  function Undo(rules: Rules, m: Match, eventId: nat, restore: Snapshot): Outcome<Match> {
    if !MayUndo(m, eventId, restore) then
      Refused
    else
      var i := LatestActive(m.events).value;
      var e := m.events[i];
      Ok(m.(events := m.events[i := e.(undone := true)],
            state := ScoreState(e.previous, ResultsWithout(rules, m.state.results, e))))
  }

  /** A point for a side, with nothing echoed. */
  function OnePoint(id: nat, side: Side): EventRequest {
    EventRequest(id, Some(1), None, false, Of(side), None, None, ScorePatch(None, None, None, None, None),
                 EventEcho(None, None, None), Unnamed)
  }

  // ----- Runs -----

  datatype Step =
    | RegisterStep(request: EventRequest)
    | ClockStep(patch: ClockPatch)
    | UndoStep(eventId: nat, restore: Snapshot)
    | PostponeStep
    | StartStep

  /** Starting needs both entrants and a scheduled or postponed match. */
  function Start(m: Match): Outcome<Match> {
    if m.entryA.Some? && m.entryB.Some? && (m.status.Scheduled? || m.status.Postponed?) then
      Ok(m.(status := Live, paused := false))
    else
      Refused
  }

  function Attempt(rules: Rules, m: Match, step: Step): Outcome<Match> {
    match step
    case RegisterStep(e) => Register(rules, m, e)
    case ClockStep(p) => UpdateClock(rules, m, p)
    case UndoStep(id, restore) => Undo(rules, m, id, restore)
    case PostponeStep => if m.status.Live? then Ok(m.(status := Postponed)) else Refused
    case StartStep => Start(m)
  }

  function Take(rules: Rules, m: Match, step: Step): Match {
    var outcome := Attempt(rules, m, step);
    if outcome.Ok? then outcome.value else m
  }

  function Run(rules: Rules, m: Match, steps: seq<Step>): Match {
    if steps == [] then m
    else Take(rules, Run(rules, m, steps[..|steps| - 1]), steps[|steps| - 1])
  }

  const FRESH_STATE: ScoreState := ScoreState(Snapshot(0, 0, 0, 0, 1), map[])

  /** A match row as it is created. */
  predicate Fresh(m: Match) {
    m.status.Scheduled? && m.state == FRESH_STATE && m.events == [] && m.lastSequence == 0
  }
}
