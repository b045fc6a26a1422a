/** Runs of a whole tournament: group results and bracket results, with the source of the bracket computed each time. */
module TournamentRuns {
  import opened Wrappers
  import opened Entries
  import opened KnockoutPhase
  import opened BracketInvariant
  import opened BracketResults
  import BracketRuns
  import opened Tournament
  import opened TournamentFlow

  /** Group rows change without a recomputation or with one, or are corrected, or something happens in the bracket. */
  datatype Step =
    | GroupChange(phase: GroupPhase)
    | GroupResult(phase: GroupPhase, date: Date)
    | CorrectGroup(phase: GroupPhase, date: Date)
    | OnBracket(inner: BracketRuns.Step)

  predicate BringsSource(inner: BracketRuns.Step) {
    inner.ChangeSource? || inner.Classify? || inner.CorrectGroups?
  }

  /** Only the group rows change; the bracket's source is what the next recomputation will read off them. */
  function Changed(reg: Regulations, e: Competition, phase: GroupPhase): Competition {
    var changed := e.(phase := Some(phase));
    changed.(bracket := e.bracket.(source := ComputedSource(reg, changed)))
  }

  ghost predicate Enabled(e: Competition, step: Step) {
    match step
    case GroupChange(phase) => e.phase.Some? && Rosters(phase) == Rosters(e.phase.value)
    case GroupResult(phase, _) => e.phase.Some? && Rosters(phase) == Rosters(e.phase.value)
    case CorrectGroup(phase, _) =>
      e.phase.Some? && Rosters(phase) == Rosters(e.phase.value) && BracketUntouched(e.bracket)
    case OnBracket(inner) =>
      !BringsSource(inner) && BracketRuns.Enabled(e.bracket, inner)
  }

  ghost function Take(reg: Regulations, e: Competition, step: Step): Competition {
    if !Enabled(e, step) then e
    else
      match step
      case GroupChange(phase) => Changed(reg, e, phase)
      case GroupResult(phase, date) => Recompute(reg, e.(phase := Some(phase)), date)
      case CorrectGroup(phase, date) =>
        Recompute(reg, e.(phase := Some(phase), bracket := e.bracket.(rounds := map[], third := None)), date)
      case OnBracket(inner) =>
        var stored := e.(bracket := BracketRuns.Stored(e.bracket, inner));
        if BracketRuns.Silent(inner) then stored else Recompute(reg, stored, inner.date)
  }

  ghost function Run(reg: Regulations, e: Competition, steps: seq<Step>): Competition {
    if steps == [] then e else Take(reg, Run(reg, e, steps[..|steps| - 1]), steps[|steps| - 1])
  }

  function ComputedSource(reg: Regulations, e: Competition): Source {
    SourceOf(reg, e.phase, e.entries, CurrentTables(reg, e))
  }

  /** Entries are listed once, groups do not overlap, and the bracket has the source the groups give. */
  ghost predicate Proper(reg: Regulations, e: Competition) {
    && Distinct(e.entries) && (e.phase.Some? ==> ProperGroups(e.phase.value))
    && e.bracket.source == ComputedSource(reg, e)
  }

  /** The bracket step an enabled step amounts to. */
  ghost function BracketStep(reg: Regulations, e: Competition, step: Step): BracketRuns.Step {
    match step
    case GroupChange(phase) => BracketRuns.ChangeSource(ComputedSource(reg, e.(phase := Some(phase))))
    case GroupResult(phase, date) => BracketRuns.Classify(ComputedSource(reg, e.(phase := Some(phase))), date)
    case CorrectGroup(phase, date) => BracketRuns.CorrectGroups(ComputedSource(reg, e.(phase := Some(phase))), date)
    case OnBracket(inner) => inner
  }

  ghost function BracketSteps(reg: Regulations, e: Competition, steps: seq<Step>): seq<BracketRuns.Step> {
    if steps == [] then []
    else
      var before, last := steps[..|steps| - 1], steps[|steps| - 1];
      BracketSteps(reg, e, before) +
      if Enabled(Run(reg, e, before), last) then [BracketStep(reg, Run(reg, e, before), last)] else []
  }

  lemma {:induction false} SameRostersProper(phase: GroupPhase, phase': GroupPhase)
    requires ProperGroups(phase) && Rosters(phase') == Rosters(phase)
    ensures ProperGroups(phase')
  {
    assert |Rosters(phase)| == |phase.groups| && |Rosters(phase')| == |phase'.groups|;
    forall i | 0 <= i < |phase'.groups| ensures phase'.groups[i].entries == phase.groups[i].entries {
      assert Rosters(phase')[i] == Rosters(phase)[i];
    }
  }

  /** What the groups or the entry list give is a source without repeats. */
  lemma {:induction false} ComputedSourceOk(reg: Regulations, e: Competition)
    requires Distinct(e.entries) && (e.phase.Some? ==> ProperGroups(e.phase.value))
    ensures SourceOk(ComputedSource(reg, e))
  {
    if e.phase.Some? && Decided(e.phase.value) {
      QualifiedOnce(reg, e.phase.value);
      assert ComputedSource(reg, e).slots == QualifiedEntries(reg, e.phase.value);
    }
  }

  // ----- A run of the tournament is a run of its bracket -----

  lemma {:induction false} StoredKeepsSource(b: Bracket, inner: BracketRuns.Step)
    requires BracketRuns.Enabled(b, inner) && !BringsSource(inner)
    ensures BracketRuns.Stored(b, inner).source == b.source
  {
  }

  lemma {:induction false} ProgressKeepsSource(setup: Setup, b: Bracket, date: Date)
    ensures Progress(setup, b, date).source == b.source
  {
  }

  lemma {:induction false} RecomputeIsProgress(reg: Regulations, e: Competition, date: Date)
    requires Distinct(e.entries) && (e.phase.Some? ==> ProperGroups(e.phase.value))
    ensures
      var e' := Recompute(reg, e, date);
      e'.bracket == Progress(reg.setup, e.bracket.(source := ComputedSource(reg, e)), date) && Proper(reg, e')
  {
    ProgressKeepsSource(reg.setup, Sourced(reg, e), date);
  }

  lemma {:induction false} ResultStep(reg: Regulations, e: Competition, phase: GroupPhase, date: Date)
    requires Proper(reg, e) && Enabled(e, GroupResult(phase, date))
    ensures
      var e' := Take(reg, e, GroupResult(phase, date));
      && e'.bracket == BracketRuns.Take(reg.setup, e.bracket, BracketStep(reg, e, GroupResult(phase, date)))
      && Proper(reg, e')
  {
    var changed := e.(phase := Some(phase));
    SameRostersProper(e.phase.value, phase);
    ComputedSourceOk(reg, changed);
    RecomputeIsProgress(reg, changed, date);
    ClassifyTaken(reg.setup, e.bracket, ComputedSource(reg, changed), date);
  }

  lemma {:induction false} ChangeStep(reg: Regulations, e: Competition, phase: GroupPhase)
    requires Proper(reg, e) && Enabled(e, GroupChange(phase))
    ensures
      var e' := Take(reg, e, GroupChange(phase));
      && e'.bracket == BracketRuns.Take(reg.setup, e.bracket, BracketStep(reg, e, GroupChange(phase)))
      && Proper(reg, e')
  {
    var changed := e.(phase := Some(phase));
    SameRostersProper(e.phase.value, phase);
    ComputedSourceOk(reg, changed);
    assert ComputedSource(reg, Changed(reg, e, phase)) == ComputedSource(reg, changed);
  }

  lemma {:induction false} ClassifyTaken(setup: Setup, b: Bracket, source: Source, date: Date)
    requires SourceOk(source)
    ensures BracketRuns.Take(setup, b, BracketRuns.Classify(source, date)) == Progress(setup, b.(source := source), date)
  {
  }

  lemma {:induction false} GroupsCorrected(setup: Setup, b: Bracket, source: Source, date: Date)
    requires SourceOk(source) && BracketUntouched(b)
    ensures
      BracketRuns.Take(setup, b, BracketRuns.CorrectGroups(source, date)) ==
      Progress(setup, b.(source := source, rounds := map[], third := None), date)
  {
  }

  lemma {:induction false} CorrectionStep(reg: Regulations, e: Competition, phase: GroupPhase, date: Date)
    requires Proper(reg, e) && Enabled(e, CorrectGroup(phase, date))
    ensures
      var e' := Take(reg, e, CorrectGroup(phase, date));
      && e'.bracket == BracketRuns.Take(reg.setup, e.bracket, BracketStep(reg, e, CorrectGroup(phase, date)))
      && Proper(reg, e')
  {
    var changed := e.(phase := Some(phase));
    var cleared := changed.(bracket := e.bracket.(rounds := map[], third := None));
    SameRostersProper(e.phase.value, phase);
    ComputedSourceOk(reg, changed);
    assert ComputedSource(reg, cleared) == ComputedSource(reg, changed);
    RecomputeIsProgress(reg, cleared, date);
    GroupsCorrected(reg.setup, e.bracket, ComputedSource(reg, changed), date);
  }

  lemma {:induction false} BracketStepTaken(reg: Regulations, e: Competition, inner: BracketRuns.Step)
    requires Proper(reg, e) && Enabled(e, OnBracket(inner))
    ensures
      var e' := Take(reg, e, OnBracket(inner));
      e'.bracket == BracketRuns.Take(reg.setup, e.bracket, inner) && Proper(reg, e')
  {
    var stored := e.(bracket := BracketRuns.Stored(e.bracket, inner));
    StoredKeepsSource(e.bracket, inner);
    assert ComputedSource(reg, stored) == ComputedSource(reg, e);
    if !BracketRuns.Silent(inner) {
      RecomputeIsProgress(reg, stored, inner.date);
      assert stored.bracket.(source := ComputedSource(reg, stored)) == stored.bracket;
    }
  }

  lemma {:induction false} StepIsBracketStep(reg: Regulations, e: Competition, step: Step)
    requires Proper(reg, e) && Enabled(e, step)
    ensures
      var e' := Take(reg, e, step);
      e'.bracket == BracketRuns.Take(reg.setup, e.bracket, BracketStep(reg, e, step)) && Proper(reg, e')
  {
    match step
    case GroupChange(phase) => ChangeStep(reg, e, phase);
    case GroupResult(phase, date) => ResultStep(reg, e, phase, date);
    case CorrectGroup(phase, date) => CorrectionStep(reg, e, phase, date);
    case OnBracket(inner) => BracketStepTaken(reg, e, inner);
  }

  /** The bracket of a tournament run is what the corresponding bracket run makes of the first bracket. */
  lemma {:induction false} RunIsBracketRun(reg: Regulations, e: Competition, steps: seq<Step>)
    requires Proper(reg, e)
    ensures Run(reg, e, steps).bracket == BracketRuns.Run(reg.setup, e.bracket, BracketSteps(reg, e, steps))
    ensures Proper(reg, Run(reg, e, steps))
  {
    if steps != [] {
      var before, last := steps[..|steps| - 1], steps[|steps| - 1];
      RunIsBracketRun(reg, e, before);
      var now, done := Run(reg, e, before), BracketSteps(reg, e, before);
      if Enabled(now, last) {
        StepIsBracketStep(reg, now, last);
        assert (done + [BracketStep(reg, now, last)])[..|done|] == done;
      } else {
        assert done + [] == done;
      }
    }
  }

  /**
   * Over every run of group results, group corrections and bracket results whose bracket steps are safe, the bracket
   * stays consistent for the source the groups then give.
   */
  lemma {:induction false} TournamentStaysConsistent(reg: Regulations, e: Competition, steps: seq<Step>)
    requires Proper(reg, e) && BracketRuns.Initial(e.bracket)
    requires BracketRuns.SafeRun(reg.setup, e.bracket, BracketSteps(reg, e, steps))
    ensures
      var now := Run(reg, e, steps);
      Proper(reg, now) && Consistent(Seeded(reg.setup, now.bracket), now.bracket)
  {
    RunIsBracketRun(reg, e, steps);
    BracketRuns.RunKeepsConsistent(reg.setup, e.bracket, BracketSteps(reg, e, steps));
  }

  // ----- A group result changed after the bracket was built -----

  /**
   * A walkover of the group phase declared again reaches the tables, but not a first round that is all filled: its
   * matches and byes stay those of the former tables, whoever qualifies now.
   */
  lemma {:induction false} ChangedGroupsLeaveFirstRound(reg: Regulations, e: Competition, phase: GroupPhase, date: Date)
    requires Proper(reg, e) && Enabled(e, GroupResult(phase, date)) && Defined(RowsAt(e.bracket, 1))
    ensures
      var e' := Take(reg, e, GroupResult(phase, date));
      && e'.standings == CurrentTables(reg, e.(phase := Some(phase))) && SameRound(e.bracket, e'.bracket, 1)
      && e'.bracket.source == ComputedSource(reg, e.(phase := Some(phase)))
  {
    var changed := e.(phase := Some(phase));
    SameRostersProper(e.phase.value, phase);
    RecomputeIsProgress(reg, changed, date);
    FirstRoundStays(reg.setup, e.bracket, ComputedSource(reg, changed), date);
  }

  lemma {:induction false} FirstRoundStays(setup: Setup, b: Bracket, source: Source, date: Date)
    requires Defined(RowsAt(b, 1))
    ensures
      var after := Progress(setup, b.(source := source), date);
      SameRound(b, after, 1) && after.source == source
  {
    var sourced := b.(source := source);
    SourceTouchesNoRound(b, source);
    BracketRuns.DefinedRoundsStay(setup, sourced, 1, date);
    assert SameRound(sourced, Progress(setup, sourced, date), 1);
    ProgressKeepsSource(setup, sourced, date);
  }

  lemma {:induction false} SourceTouchesNoRound(b: Bracket, source: Source)
    ensures RowsAt(b.(source := source), 1) == RowsAt(b, 1) && ByesAt(b.(source := source), 1) == ByesAt(b, 1)
  {
  }
}
