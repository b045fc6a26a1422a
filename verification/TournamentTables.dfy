/** Which stored matches the tables of a tournament count, and what each of them gives. */
module TournamentTables {
  import opened Wrappers
  import opened Entries
  import opened Statuses
  import opened Standings
  import opened Ranking
  import opened GroupTable
  import opened KnockoutPhase
  import opened Tournament
  import opened TournamentFlow

  /** What a stored match gives an entry: its share if it is finished or a walkover, and otherwise nothing. */
  function Gives(row: MatchRow, members: set<Entry>, rule: Rule, x: Entry, c: Column): real {
    if row.status.Finished? || row.status.Walkover? then Share(row.played, members, rule, x, c) else 0.0
  }

  /** All rows count once. */
  function SumOf(rows: seq<MatchRow>, members: set<Entry>, rule: Rule, x: Entry, c: Column): real {
    if rows == [] then 0.0
    else SumOf(rows[..|rows| - 1], members, rule, x, c) + Gives(rows[|rows| - 1], members, rule, x, c)
  }

  lemma {:induction false} CellOfOfficial(rows: seq<MatchRow>, members: set<Entry>, rule: Rule, x: Entry, c: Column)
    ensures Cell(OfficialOf(rows), members, rule, x, c) == SumOf(rows, members, rule, x, c)
  {
    if rows != [] {
      var n := |rows| - 1;
      CellOfOfficial(rows[..n], members, rule, x, c);
      OneRowMore(OfficialOf(rows[..n]), rows[n], members, rule, x, c);
    }
  }

  lemma {:induction false} OneRowMore(
      before: seq<CountedMatch>, row: MatchRow, members: set<Entry>, rule: Rule, x: Entry, c: Column)
    ensures
      Cell(before + (if Official(row.status) then [row.played] else []), members, rule, x, c) ==
      Cell(before, members, rule, x, c) + Gives(row, members, rule, x, c)
  {
    if Official(row.status) {
      CellOfConcat(before, [row.played], members, rule, x, c);
      CellOfOne(row.played, members, rule, x, c);
    } else {
      assert before + [] == before;
    }
  }

  /** A match without a group that is not inside this one gives nothing in it. */
  lemma {:induction false} CellOfCounted(
      phase: GroupPhase, group: GroupRows, rule: Rule, x: Entry, c: Column)
    ensures
      var members := Members(group.entries);
      Cell(CountedIn(phase, group), members, rule, x, c) ==
      SumOf(group.matches, members, rule, x, c) + SumOf(phase.loose, members, rule, x, c)
  {
    var members := Members(group.entries);
    CellOfConcat(OfficialOf(group.matches), Inside(OfficialOf(phase.loose), members), members, rule, x, c);
    CellInside(OfficialOf(phase.loose), members, rule, x, c);
    CellOfOfficial(group.matches, members, rule, x, c);
    CellOfOfficial(phase.loose, members, rule, x, c);
  }

  lemma {:induction false} RowOfTable(reg: Regulations, phase: GroupPhase, i: nat, x: Entry)
    requires ProperGroups(phase) && i < |phase.groups| && x in phase.groups[i].entries
    ensures
      var group := phase.groups[i];
      var table, g := Merged(TablesOf(reg, phase)), Group(CountedIn(phase, group), Members(group.entries), reg.rule);
      && x in table && table[x].entry == x
      && table[x].points == Cell(g.matches, g.members, g.rule, x, TablePoints)
      && table[x].scoreFor == Cell(g.matches, g.members, g.rule, x, ScoreFor)
      && table[x].scoreAgainst == Cell(g.matches, g.members, g.rule, x, ScoreAgainst)
  {
    var tables := TablesOf(reg, phase);
    forall j | i < j < |tables| ensures x !in tables[j] {
      TableKeys(reg, phase, j);
    }
    OrderKeepsEntries(reg, phase, i);
    assert x in OrderIn(reg, phase, i);
    RowAfterMerge(tables, i, x);
  }

  /**
   * Recomputed, the row of an entry adds up every match of its group, and every match without a group, that is
   * finished or a walkover, each once: points by the rule, scores as they were made and conceded.
   */
  lemma {:induction false} StandingsAddUpResults(reg: Regulations, e: Competition, date: Date, i: nat, x: Entry)
    requires e.phase.Some? && ProperGroups(e.phase.value)
    requires i < |e.phase.value.groups| && x in e.phase.value.groups[i].entries
    ensures
      var phase := e.phase.value;
      var own, loose, members := phase.groups[i].matches, phase.loose, Members(phase.groups[i].entries);
      var table := Recompute(reg, e, date).standings;
      && x in table && table[x].entry == x
      && table[x].points == SumOf(own, members, reg.rule, x, TablePoints) + SumOf(loose, members, reg.rule, x, TablePoints)
      && table[x].scoreFor == SumOf(own, members, reg.rule, x, ScoreFor) + SumOf(loose, members, reg.rule, x, ScoreFor)
      && table[x].scoreAgainst ==
           SumOf(own, members, reg.rule, x, ScoreAgainst) + SumOf(loose, members, reg.rule, x, ScoreAgainst)
  {
    var phase := e.phase.value;
    RowOfTable(reg, phase, i, x);
    CellOfCounted(phase, phase.groups[i], reg.rule, x, TablePoints);
    CellOfCounted(phase, phase.groups[i], reg.rule, x, ScoreFor);
    CellOfCounted(phase, phase.groups[i], reg.rule, x, ScoreAgainst);
  }

  // ----- Matches that are not over -----

  /** The rows with one more match put in. */
  function WithRow(rows: seq<MatchRow>, at: nat, row: MatchRow): seq<MatchRow>
    requires at <= |rows|
  {
    rows[..at] + [row] + rows[at..]
  }

  lemma {:induction false} OpenRowIsSkipped(rows: seq<MatchRow>, at: nat, row: MatchRow)
    requires at <= |rows| && !row.status.Finished? && !row.status.Walkover?
    ensures OfficialOf(WithRow(rows, at, row)) == OfficialOf(rows)
    decreases |rows|
  {
    var all := WithRow(rows, at, row);
    if at == |rows| {
      assert all[..|all| - 1] == rows;
    } else {
      var n := |rows| - 1;
      assert all[..|all| - 1] == WithRow(rows[..n], at, row) && all[|all| - 1] == rows[n];
      OpenRowIsSkipped(rows[..n], at, row);
    }
  }

  function WithGroupRow(phase: GroupPhase, i: nat, at: nat, row: MatchRow): GroupPhase
    requires i < |phase.groups| && at <= |phase.groups[i].matches|
  {
    var group := phase.groups[i];
    phase.(groups := phase.groups[i := group.(matches := WithRow(group.matches, at, row))])
  }

  /** A match of a group that is neither finished nor a walkover changes no row of any table, ranks included. */
  lemma {:induction false} OpenGroupMatchChangesNothing(
      reg: Regulations, e: Competition, date: Date, i: nat, at: nat, row: MatchRow)
    requires e.phase.Some? && i < |e.phase.value.groups| && at <= |e.phase.value.groups[i].matches|
    requires !row.status.Finished? && !row.status.Walkover?
    ensures
      Recompute(reg, e.(phase := Some(WithGroupRow(e.phase.value, i, at, row))), date).standings ==
      Recompute(reg, e, date).standings
  {
    var phase := e.phase.value;
    var phase' := WithGroupRow(phase, i, at, row);
    OpenRowIsSkipped(phase.groups[i].matches, at, row);
    forall j | 0 <= j < |phase.groups|
      ensures GroupTableOf(reg, phase', phase'.groups[j]) == GroupTableOf(reg, phase, phase.groups[j])
    {
      assert CountedIn(phase', phase'.groups[j]) == CountedIn(phase, phase.groups[j]);
    }
    assert TablesOf(reg, phase') == TablesOf(reg, phase);
  }

  /** Nor does such a match without a group. */
  lemma {:induction false} OpenLooseMatchChangesNothing(
      reg: Regulations, e: Competition, date: Date, at: nat, row: MatchRow)
    requires e.phase.Some? && at <= |e.phase.value.loose| && !row.status.Finished? && !row.status.Walkover?
    ensures
      var phase := e.phase.value;
      Recompute(reg, e.(phase := Some(phase.(loose := WithRow(phase.loose, at, row)))), date).standings ==
      Recompute(reg, e, date).standings
  {
    var phase := e.phase.value;
    var phase' := phase.(loose := WithRow(phase.loose, at, row));
    OpenRowIsSkipped(phase.loose, at, row);
    forall j | 0 <= j < |phase.groups|
      ensures GroupTableOf(reg, phase', phase.groups[j]) == GroupTableOf(reg, phase, phase.groups[j])
    {
      assert CountedIn(phase', phase.groups[j]) == CountedIn(phase, phase.groups[j]);
    }
    assert TablesOf(reg, phase') == TablesOf(reg, phase);
  }

  // ----- When the groups give the bracket its entries -----

  ghost predicate SomeOpen(rows: seq<MatchRow>) {
    exists i :: 0 <= i < |rows| && !rows[i].status.Finished? && !rows[i].status.Walkover?
  }

  /** No match has been scheduled, or one is neither finished nor a walkover. */
  ghost predicate GroupsOpen(phase: GroupPhase) {
    || SomeOpen(phase.loose)
    || (exists j :: 0 <= j < |phase.groups| && SomeOpen(phase.groups[j].matches))
    || (phase.loose == [] && forall j | 0 <= j < |phase.groups| :: phase.groups[j].matches == [])
  }

  /** The bracket waits for the groups exactly as long as a match of theirs is open, or none exists. */
  lemma {:induction false} BracketWaitsExactly(reg: Regulations, e: Competition, date: Date)
    ensures
      Recompute(reg, e, date).bracket.source.Pending? <==> e.phase.Some? && GroupsOpen(e.phase.value)
  {
    if e.phase.Some? {
      DecidedMeansClosed(e.phase.value);
    }
  }

  lemma {:induction false} DecidedMeansClosed(phase: GroupPhase)
    ensures Decided(phase) <==> !GroupsOpen(phase)
  {
    AllPlayedMeansNoneOpen(phase.loose);
    forall j | 0 <= j < |phase.groups|
      ensures AllPlayed(phase.groups[j].matches) <==> !SomeOpen(phase.groups[j].matches)
    {
      AllPlayedMeansNoneOpen(phase.groups[j].matches);
    }
  }

  lemma {:induction false} AllPlayedMeansNoneOpen(rows: seq<MatchRow>)
    ensures AllPlayed(rows) <==> !SomeOpen(rows)
  {
  }

  // ----- The status -----

  /** A match that is being played or has been. */
  predicate Played(status: Status) {
    status.Live? || status.Finished? || status.Walkover?
  }

  ghost predicate SomePlayed(rows: seq<MatchRow>) {
    exists i :: 0 <= i < |rows| && Played(rows[i].status)
  }

  ghost predicate GroupPlayed(phase: GroupPhase) {
    SomePlayed(phase.loose) || exists j :: 0 <= j < |phase.groups| && SomePlayed(phase.groups[j].matches)
  }

  ghost predicate BracketPlayed(b: Bracket) {
    || (b.third.Some? && Played(b.third.value.status))
    || exists r, s :: r in b.rounds && s in b.rounds[r] && Played(b.rounds[r][s].status)
  }

  /** A published tournament becomes ongoing exactly when the bracket says so or one of its matches has started. */
  lemma {:induction false} PublishedBecomesOngoingExactly(reg: Regulations, e: Competition, date: Date)
    requires StatusAfter(reg.setup, Sourced(reg, e), e.status).Published?
    ensures
      var after := Recompute(reg, e, date);
      after.status ==
      if (e.phase.Some? && GroupPlayed(e.phase.value)) || BracketPlayed(after.bracket) then Ongoing else Published
  {
    var after := Recompute(reg, e, date);
    BracketStartedMeansPlayed(after.bracket);
    if e.phase.Some? {
      GroupStartedMeansPlayed(e.phase.value);
    }
  }

  lemma {:induction false} BracketStartedMeansPlayed(b: Bracket)
    ensures BracketStarted(b) <==> BracketPlayed(b)
  {
    if r :| r in b.rounds && RowsStarted(b.rounds[r]) {
      var s :| s in b.rounds[r] && Started(b.rounds[r][s].status);
      assert Played(b.rounds[r][s].status);
    }
    if r, s :| r in b.rounds && s in b.rounds[r] && Played(b.rounds[r][s].status) {
      assert Started(b.rounds[r][s].status);
      assert RowsStarted(b.rounds[r]);
    }
  }

  lemma {:induction false} GroupStartedMeansPlayed(phase: GroupPhase)
    ensures PhaseStarted(phase) <==> GroupPlayed(phase)
  {
    AnyStartedMeansPlayed(phase.loose);
    forall j | 0 <= j < |phase.groups| ensures AnyStarted(phase.groups[j].matches) <==> SomePlayed(phase.groups[j].matches) {
      AnyStartedMeansPlayed(phase.groups[j].matches);
    }
  }

  lemma {:induction false} AnyStartedMeansPlayed(rows: seq<MatchRow>)
    ensures AnyStarted(rows) <==> SomePlayed(rows)
  {
    if i :| 0 <= i < |rows| && Started(rows[i].status) {
      assert Played(rows[i].status);
    }
    if i :| 0 <= i < |rows| && Played(rows[i].status) {
      assert Started(rows[i].status);
    }
  }
}
