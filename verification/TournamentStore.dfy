/** The stored tournament, recomputed in place. */
module TournamentStore {
  import opened Wrappers
  import opened Entries
  import opened Ranking
  import opened GroupTable
  import opened Qualification
  import opened Classification
  import opened KnockoutPhase
  import opened BracketStore
  import opened Tournament

  /** The rows of a group as the table of its ranking. */
  method StoreRows(rows: seq<StandingRow>, ghost g: Group, ghost order: seq<Entry>, ghost entries: seq<Entry>)
    returns (table: map<Entry, Standing>)
    requires RowsOf(rows, g, order, entries) && Distinct(order) && SameEntries(order, entries)
    ensures table == TableOfOrder(g, order)
  {
    table := map[];
    for i := 0 to |rows|
      invariant forall x :: x in table <==> x in entries[..i]
      invariant forall x | x in table :: x in order && table[x] == StandingIn(g, order, x)
    {
      assert RowOf(rows[i], g, order, entries[i]);
      assert entries[..i + 1] == entries[..i] + [entries[i]];
      table := table[rows[i].entry := StandingOf(rows[i])];
    }
    assert entries[..|rows|] == entries;
    assert table.Keys == Members(order);
  }

  method GroupTableLoop(reg: Regulations, phase: GroupPhase, group: GroupRows) returns (table: map<Entry, Standing>)
    requires Distinct(group.entries)
    ensures table == GroupTableOf(reg, phase, group)
  {
    var counted := CountedIn(phase, group);
    var rows := ComputeStandings(group.entries, counted, reg.rule, reg.tiebreakers);
    ghost var g := Group(counted, Members(group.entries), reg.rule);
    RankedKeepsEntries(g, group.entries, reg.tiebreakers);
    table := StoreRows(rows, g, Ranked(g, group.entries, reg.tiebreakers), group.entries);
  }

  method PhaseTables(reg: Regulations, phase: GroupPhase) returns (standings: map<Entry, Standing>)
    requires forall i | 0 <= i < |phase.groups| :: Distinct(phase.groups[i].entries)
    ensures standings == Merged(TablesOf(reg, phase))
  {
    standings := map[];
    ghost var tables := TablesOf(reg, phase);
    for i := 0 to |phase.groups|
      invariant standings == Merged(tables[..i])
    {
      assert tables[..i + 1][..i] == tables[..i];
      var table := GroupTableLoop(reg, phase, phase.groups[i]);
      standings := standings + table;
    }
    assert tables[..|phase.groups|] == tables;
  }

  class Store {
    const reg: Regulations
    var phase: Option<GroupPhase>
    var entries: seq<Entry>
    var standings: map<Entry, Standing>
    var bracket: Bracket
    var status: TournamentStatus

    constructor (reg: Regulations, start: Competition)
      ensures this.reg == reg && Stored() == start
    {
      this.reg := reg;
      phase, entries, standings, bracket, status :=
        start.phase, start.entries, start.standings, start.bracket, start.status;
    }

    function Stored(): Competition
      reads this
    {
      Competition(phase, entries, standings, bracket, status)
    }

    /** Who enters the bracket: the entry list, nobody yet, or those the tables qualify. */
    method ComputeSource() returns (source: Source)
      ensures source == SourceOf(reg, phase, entries, standings)
    {
      if phase.None? {
        return EntryList(entries);
      }
      if !Decided(phase.value) {
        return Pending;
      }
      var rosters := Rosters(phase.value);
      var qualified := CollectQualifiers(rosters, standings, reg.perGroup, reg.bestThirds);
      return Classified(EntriesOf(qualified), PlacedLabels(reg, rosters, standings));
    }

    /** Tables first, then the bracket, then the status. */
    method RecomputeTournament(date: Date)
      requires phase.Some? ==> forall i | 0 <= i < |phase.value.groups| :: Distinct(phase.value.groups[i].entries)
      modifies this
      ensures Stored() == Recompute(reg, old(Stored()), date)
    {
      standings := map[];
      if phase.Some? {
        standings := PhaseTables(reg, phase.value);
      }
      var source := ComputeSource();
      bracket := bracket.(source := source);
      var knockout := new Phase(reg.setup, bracket, status);
      knockout.ProgressKnockout(date);
      bracket, status := knockout.Stored(), knockout.status;
      var started := (phase.Some? && PhaseStarted(phase.value)) || BracketStarted(bracket);
      if status.Published? && started {
        status := Ongoing;
      }
    }
  }
}
