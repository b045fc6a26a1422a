/** One recomputation of a whole tournament: tables, qualifiers, bracket and status. */
module Tournament {
  import opened Wrappers
  import opened Entries
  import opened Statuses
  import opened Standings
  import opened Ranking
  import opened GroupTable
  import opened Qualification
  import opened Sorting
  import opened KnockoutPhase
  import opened BracketInvariant
  import opened BracketRecompute

  /** A match of the group phase. */
  datatype MatchRow = MatchRow(status: Status, played: CountedMatch)

  datatype GroupRows = GroupRows(entries: seq<Entry>, matches: seq<MatchRow>)

  /** The groups, and the matches that were scheduled in the phase but in no group. */
  datatype GroupPhase = GroupPhase(groups: seq<GroupRows>, loose: seq<MatchRow>)

  /** What a label of a published bracket points at; groups by their index. */
  datatype Placement = InGroup(group: nat, position: nat) | BestThird(position: nat)

  datatype Regulations = Regulations(
    rule: Rule,
    tiebreakers: seq<Criterion>,
    setup: Setup,
    perGroup: nat,
    bestThirds: nat,
    labels: map<Label, Placement>)

  datatype Competition = Competition(
    phase: Option<GroupPhase>,
    entries: seq<Entry>,
    standings: map<Entry, Standing>,
    bracket: Bracket,
    status: TournamentStatus)

  // ----- Tables -----

  function OfficialOf(rows: seq<MatchRow>): seq<CountedMatch> {
    if rows == [] then []
    else
      var last := rows[|rows| - 1];
      OfficialOf(rows[..|rows| - 1]) + if Official(last.status) then [last.played] else []
  }

  /** A match without a group counts in the group that has both its entries. */
  function CountedIn(phase: GroupPhase, group: GroupRows): seq<CountedMatch> {
    OfficialOf(group.matches) + Inside(OfficialOf(phase.loose), Members(group.entries))
  }

  function IndexOf(order: seq<Entry>, x: Entry): (i: nat)
    requires x in order
    ensures i < |order| && order[i] == x
  {
    if order[0] == x then 0 else 1 + IndexOf(order[1..], x)
  }

  function StandingIn(g: Group, order: seq<Entry>, x: Entry): Standing
    requires x in order
  {
    Standing(x, IndexOf(order, x) + 1, Cell(g.matches, g.members, g.rule, x, TablePoints),
             Cell(g.matches, g.members, g.rule, x, ScoreFor), Cell(g.matches, g.members, g.rule, x, ScoreAgainst))
  }

  function TableOfOrder(g: Group, order: seq<Entry>): map<Entry, Standing> {
    map x | x in Members(order) :: StandingIn(g, order, x)
  }

  function GroupTableOf(reg: Regulations, phase: GroupPhase, group: GroupRows): map<Entry, Standing> {
    var g := Group(CountedIn(phase, group), Members(group.entries), reg.rule);
    TableOfOrder(g, Ranked(g, group.entries, reg.tiebreakers))
  }

  function TablesOf(reg: Regulations, phase: GroupPhase): (tables: seq<map<Entry, Standing>>)
    ensures |tables| == |phase.groups|
  {
    seq(|phase.groups|, i requires 0 <= i < |phase.groups| => GroupTableOf(reg, phase, phase.groups[i]))
  }

  function Merged(tables: seq<map<Entry, Standing>>): map<Entry, Standing> {
    if tables == [] then map[] else Merged(tables[..|tables| - 1]) + tables[|tables| - 1]
  }

  // ----- Where the first round comes from -----

  function Rosters(phase: GroupPhase): seq<seq<Entry>> {
    seq(|phase.groups|, i requires 0 <= i < |phase.groups| => phase.groups[i].entries)
  }

  predicate AllPlayed(rows: seq<MatchRow>) {
    forall i | 0 <= i < |rows| :: Official(rows[i].status)
  }

  /** There is something to classify by, and no match of the phase is open. */
  predicate Decided(phase: GroupPhase) {
    (phase.loose != [] || exists i :: 0 <= i < |phase.groups| && phase.groups[i].matches != []) &&
    AllPlayed(phase.loose) && forall i | 0 <= i < |phase.groups| :: AllPlayed(phase.groups[i].matches)
  }

  function EntriesOf(slots: seq<Slot>): (entries: seq<Entry>)
    ensures |entries| == |slots| && forall i | 0 <= i < |slots| :: entries[i] == slots[i].entry
  {
    if slots == [] then [] else [slots[0].entry] + EntriesOf(slots[1..])
  }

  /** The best thirds a label can name, whether or not so many go through. */
  function Thirds(reg: Regulations, rosters: seq<seq<Entry>>, standings: map<Entry, Standing>): seq<Slot> {
    Sort(Better, AtPosition(rosters, standings, reg.perGroup + 1))
  }

  function Placed(
      reg: Regulations, rosters: seq<seq<Entry>>, standings: map<Entry, Standing>, p: Placement): seq<Slot> {
    match p
    case InGroup(group, position) =>
      if group < |rosters| then WithRank(rosters[group], standings, position) else []
    case BestThird(position) =>
      var thirds := Thirds(reg, rosters, standings);
      if 1 <= position <= |thirds| then [thirds[position - 1]] else []
  }

  function PlacedLabels(
      reg: Regulations, rosters: seq<seq<Entry>>, standings: map<Entry, Standing>): map<Label, Entry> {
    map l | l in reg.labels && Placed(reg, rosters, standings, reg.labels[l]) != [] ::
      Placed(reg, rosters, standings, reg.labels[l])[0].entry
  }

  function SourceOf(
      reg: Regulations, phase: Option<GroupPhase>, entries: seq<Entry>, standings: map<Entry, Standing>): Source {
    if phase.None? then EntryList(entries)
    else if !Decided(phase.value) then Pending
    else
      var rosters := Rosters(phase.value);
      var qualified := Qualifiers(rosters, standings, reg.perGroup, reg.bestThirds);
      Classified(EntriesOf(qualified), PlacedLabels(reg, rosters, standings))
  }

  // ----- Status -----

  predicate Started(status: Status) {
    status.Live? || status.Finished? || status.Walkover?
  }

  predicate AnyStarted(rows: seq<MatchRow>) {
    exists i :: 0 <= i < |rows| && Started(rows[i].status)
  }

  predicate PhaseStarted(phase: GroupPhase) {
    AnyStarted(phase.loose) || exists i :: 0 <= i < |phase.groups| && AnyStarted(phase.groups[i].matches)
  }

  predicate RowsStarted(rows: Rows) {
    exists s :: s in rows && Started(rows[s].status)
  }

  predicate BracketStarted(b: Bracket) {
    (b.third.Some? && Started(b.third.value.status)) || exists r :: r in b.rounds && RowsStarted(b.rounds[r])
  }

  /** The first match that starts takes a published tournament to ongoing; the final is what closes it. */
  function Synced(status: TournamentStatus, started: bool): TournamentStatus {
    if status.Published? && started then Ongoing else status
  }

  // ----- The recomputation -----

  function CurrentTables(reg: Regulations, e: Competition): map<Entry, Standing> {
    if e.phase.None? then map[] else Merged(TablesOf(reg, e.phase.value))
  }

  function Sourced(reg: Regulations, e: Competition): Bracket {
    e.bracket.(source := SourceOf(reg, e.phase, e.entries, CurrentTables(reg, e)))
  }

  function Recompute(reg: Regulations, e: Competition, date: Date): Competition {
    var bracket := Progress(reg.setup, Sourced(reg, e), date);
    var started := (e.phase.Some? && PhaseStarted(e.phase.value)) || BracketStarted(bracket);
    Competition(e.phase, e.entries, CurrentTables(reg, e), bracket,
          Synced(StatusAfter(reg.setup, Sourced(reg, e), e.status), started))
  }

  // ----- Twice is once -----

  /**
   * For every tournament: recomputing it twice, tables, bracket and status, is recomputing it once if and only if
   * the first does not use a part of a publication that the seeding would fill differently.
   */
  lemma {:induction false} RecomputeIsIdempotentExactly(reg: Regulations, e: Competition, date: Date, date': Date)
    ensures
      Recompute(reg, Recompute(reg, e, date), date') == Recompute(reg, e, date) <==>
      (Contested(Sourced(reg, e)) ==> SeedingAgrees(reg.setup, Sourced(reg, e)))
  {
    var b, once := Sourced(reg, e), Recompute(reg, e, date);
    assert Sourced(reg, once) == once.bracket;
    TwiceIsOnceExactly(reg.setup, b, date, date');
    StatusIsIdempotent(reg.setup, b, e.status, date);
  }

  /** A recomputation never touches the group phase, nor removes, moves or re-scores a bracket match. */
  lemma {:induction false} RecomputePreservesMatches(
      reg: Regulations, e: Competition, date: Date, round: nat, slot: nat)
    requires slot in RowsAt(e.bracket, round)
    ensures
      var after := Recompute(reg, e, date);
      after.phase == e.phase && slot in RowsAt(after.bracket, round) &&
      Preserves(RowsAt(e.bracket, round)[slot], RowsAt(after.bracket, round)[slot])
  {
    assert RowsAt(Sourced(reg, e), round) == RowsAt(e.bracket, round);
    ProgressPreservesMatches(reg.setup, Sourced(reg, e), date, round, slot);
  }
}
