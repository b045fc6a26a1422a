/** The table of a group: what each entry gets from the counted matches. */
module Standings {
  import opened Wrappers
  import opened Entries

  datatype DisciplinaryEvent = DisciplinaryEvent(entry: Option<Entry>, fairPlayPoints: real)

  /** An official match as the table reads it; events that were undone are not among its events. */
  datatype CountedMatch = CountedMatch(
    entryA: Option<Entry>,
    entryB: Option<Entry>,
    winner: Option<Entry>,
    scoreA: real,
    scoreB: real,
    events: seq<DisciplinaryEvent>)

  datatype Rule = Rule(win: real, draw: real, loss: real)

  datatype Column = Played | Won | Drawn | Lost | ScoreFor | ScoreAgainst | TablePoints | Disciplinary

  /** One row of the table; every column is always present. */
  type Row = map<Column, real>

  const EMPTY_ROW: Row :=
    map[Played := 0.0, Won := 0.0, Drawn := 0.0, Lost := 0.0,
        ScoreFor := 0.0, ScoreAgainst := 0.0, TablePoints := 0.0, Disciplinary := 0.0]

  ghost predicate FullRow(row: Row) {
    forall c: Column :: c in row
  }

  /** Both participants are known and belong to the table. */
  predicate Counts(m: CountedMatch, members: set<Entry>) {
    m.entryA.Some? && m.entryB.Some? && m.entryA.value in members && m.entryB.value in members
  }

  // ----- What one match gives one entry -----

  datatype Verdict = HomeWin | AwayWin | Draw

  /** The home side is compared first. */
  function VerdictOf(m: CountedMatch): Verdict {
    if m.winner == m.entryA then HomeWin else if m.winner == m.entryB then AwayWin else Draw
  }

  function When(condition: bool, amount: real): real {
    if condition then amount else 0.0
  }

  /** What a match adds to a column of the side that played with these scores. */
  function SideShare(rule: Rule, won: bool, lost: bool, scored: real, conceded: real, c: Column): real {
    match c
    case Played => 1.0
    case Won => When(won, 1.0)
    case Lost => When(lost, 1.0)
    case Drawn => When(!won && !lost, 1.0)
    case ScoreFor => scored
    case ScoreAgainst => conceded
    case TablePoints => if won then rule.win else if lost then rule.loss else rule.draw
    case Disciplinary => 0.0
  }

  function HomeShare(m: CountedMatch, rule: Rule, c: Column): real {
    SideShare(rule, VerdictOf(m).HomeWin?, VerdictOf(m).AwayWin?, m.scoreA, m.scoreB, c)
  }

  function AwayShare(m: CountedMatch, rule: Rule, c: Column): real {
    SideShare(rule, VerdictOf(m).AwayWin?, VerdictOf(m).HomeWin?, m.scoreB, m.scoreA, c)
  }

  function Discipline(events: seq<DisciplinaryEvent>, x: Entry): real {
    if events == [] then 0.0
    else
      var last := events[|events| - 1];
      Discipline(events[..|events| - 1], x) + When(last.entry == Some(x), last.fairPlayPoints)
  }

  function Share(m: CountedMatch, members: set<Entry>, rule: Rule, x: Entry, c: Column): real {
    if !Counts(m, members) then 0.0
    else
      When(m.entryA == Some(x), HomeShare(m, rule, c)) +
      When(m.entryB == Some(x), AwayShare(m, rule, c)) +
      When(c.Disciplinary?, Discipline(m.events, x))
  }

  /** A cell of the table: the sum of what each match gives. */
  function Cell(matches: seq<CountedMatch>, members: set<Entry>, rule: Rule, x: Entry, c: Column): real {
    if matches == [] then 0.0
    else
      var n := |matches| - 1;
      Cell(matches[..n], members, rule, x, c) + Share(matches[n], members, rule, x, c)
  }

  /** The row an entry has from one match it won, lost or drew; discipline apart. */
  function ResultRow(rule: Rule, scored: real, conceded: real, won: bool, lost: bool): Row {
    map[Played := 1.0, Won := if won then 1.0 else 0.0, Lost := if lost then 1.0 else 0.0,
        Drawn := if won || lost then 0.0 else 1.0, ScoreFor := scored, ScoreAgainst := conceded,
        TablePoints := if won then rule.win else if lost then rule.loss else rule.draw, Disciplinary := 0.0]
  }

  /** A counted match gives each of its two sides its own result, and nobody else anything. */
  lemma {:induction false} ShareIsResult(m: CountedMatch, members: set<Entry>, rule: Rule, home: Entry, away: Entry, c: Column)
    requires m.entryA == Some(home) && m.entryB == Some(away) && home != away && home in members && away in members
    requires c != Disciplinary
    ensures
      var homeWon, awayWon := m.winner == Some(home), m.winner == Some(away);
      && Share(m, members, rule, home, c) == ResultRow(rule, m.scoreA, m.scoreB, homeWon, awayWon)[c]
      && Share(m, members, rule, away, c) == ResultRow(rule, m.scoreB, m.scoreA, awayWon, homeWon)[c]
      && forall x: Entry | x != home && x != away :: Share(m, members, rule, x, c) == 0.0
  {
  }

  /** A match with a side that is unknown or outside the table gives nobody anything. */
  lemma {:induction false} OutsideMatchGivesNothing(m: CountedMatch, members: set<Entry>, rule: Rule, x: Entry, c: Column)
    requires m.entryA.None? || m.entryB.None? || m.entryA.value !in members || m.entryB.value !in members
    ensures Share(m, members, rule, x, c) == 0.0
  {
  }

  /** The fair-play points of an entry are those of its own events, each once, and of no other event. */
  lemma {:induction false} DisciplineIsOwn(first: seq<DisciplinaryEvent>, e: DisciplinaryEvent, rest: seq<DisciplinaryEvent>, x: Entry)
    ensures
      Discipline(first + [e] + rest, x) ==
      Discipline(first, x) + Discipline(rest, x) + if e.entry == Some(x) then e.fairPlayPoints else 0.0
    ensures Discipline([], x) == 0.0
  {
    if rest == [] {
      assert first + [e] + rest == first + [e];
      assert (first + [e])[..|first|] == first;
    } else {
      var n := |rest| - 1;
      assert (first + [e] + rest)[..|first| + 1 + n] == first + [e] + rest[..n];
      DisciplineIsOwn(first, e, rest[..n], x);
    }
  }

  // ----- The loop over the matches -----

  type Table = map<Entry, Row>

  ghost predicate FullTable(rows: Table, members: set<Entry>) {
    rows.Keys == members && forall x | x in rows :: FullRow(rows[x])
  }

  function Bump(rows: Table, x: Entry, c: Column, amount: real): Table
    requires x in rows && c in rows[x]
  {
    rows[x := rows[x][c := rows[x][c] + amount]]
  }

  /** What the scores of a match give a side. */
  function ScorePart(scored: real, conceded: real, c: Column): real {
    if c.Played? then 1.0 else if c.ScoreFor? then scored else if c.ScoreAgainst? then conceded else 0.0
  }

  /** What the outcome of a match gives a side. */
  function VerdictPart(rule: Rule, won: bool, lost: bool, c: Column): real {
    if c.Played? then 0.0 else SideShare(rule, won, lost, 0.0, 0.0, c)
  }

  method AddSide(before: Table, side: Entry, scored: real, conceded: real) returns (rows: Table)
    requires FullTable(before, before.Keys) && side in before
    ensures FullTable(rows, before.Keys)
    ensures forall x, c: Column | x in before ::
      rows[x][c] == before[x][c] + When(x == side, ScorePart(scored, conceded, c))
  {
    rows := Bump(before, side, Played, 1.0);
    rows := Bump(rows, side, ScoreFor, scored);
    rows := Bump(rows, side, ScoreAgainst, conceded);
  }

  method AddDiscipline(before: Table, events: seq<DisciplinaryEvent>) returns (rows: Table)
    requires FullTable(before, before.Keys)
    ensures FullTable(rows, before.Keys)
    ensures forall x, c: Column | x in before ::
      rows[x][c] == before[x][c] + When(c.Disciplinary?, Discipline(events, x))
  {
    rows := before;
    for i := 0 to |events|
      invariant FullTable(rows, before.Keys)
      invariant forall x, c: Column | x in before ::
        rows[x][c] == before[x][c] + When(c.Disciplinary?, Discipline(events[..i], x))
    {
      assert events[..i + 1][..i] == events[..i];
      var event := events[i];
      if event.entry.Some? && event.entry.value in rows {
        rows := Bump(rows, event.entry.value, Disciplinary, event.fairPlayPoints);
      }
    }
    assert events[..|events|] == events;
  }

  /** One more won, drawn or lost match, and its table points. */
  method AddOutcome(before: Table, side: Entry, outcome: Column, points: real) returns (rows: Table)
    requires FullTable(before, before.Keys) && side in before && !outcome.TablePoints?
    ensures FullTable(rows, before.Keys)
    ensures forall x, c: Column | x in before ::
      rows[x][c] == before[x][c] + When(x == side && c == outcome, 1.0) + When(x == side && c.TablePoints?, points)
  {
    rows := Bump(before, side, outcome, 1.0);
    rows := Bump(rows, side, TablePoints, points);
  }

  lemma {:induction false} OutcomePart(rule: Rule, won: bool, lost: bool, c: Column)
    requires !(won && lost)
    ensures
      VerdictPart(rule, won, lost, c) ==
      When(c == (if won then Won else if lost then Lost else Drawn), 1.0) +
      When(c.TablePoints?, if won then rule.win else if lost then rule.loss else rule.draw)
  {
    match c
    case Played =>
    case _ =>
  }

  method AddDecision(before: Table, winner: Entry, loser: Entry, rule: Rule) returns (rows: Table)
    requires FullTable(before, before.Keys) && winner in before && loser in before
    ensures FullTable(rows, before.Keys)
    ensures forall x, c: Column | x in before ::
      rows[x][c] == before[x][c] + When(x == winner, VerdictPart(rule, true, false, c))
                                 + When(x == loser, VerdictPart(rule, false, true, c))
  {
    var won := AddOutcome(before, winner, Won, rule.win);
    rows := AddOutcome(won, loser, Lost, rule.loss);
    forall x, c: Column | x in before
      ensures rows[x][c] == before[x][c] + When(x == winner, VerdictPart(rule, true, false, c))
                                         + When(x == loser, VerdictPart(rule, false, true, c))
    {
      OutcomePart(rule, true, false, c);
      OutcomePart(rule, false, true, c);
    }
  }

  method AddDraw(before: Table, home: Entry, away: Entry, rule: Rule) returns (rows: Table)
    requires FullTable(before, before.Keys) && home in before && away in before
    ensures FullTable(rows, before.Keys)
    ensures forall x, c: Column | x in before ::
      rows[x][c] == before[x][c] + When(x == home, VerdictPart(rule, false, false, c))
                                 + When(x == away, VerdictPart(rule, false, false, c))
  {
    var first := AddOutcome(before, home, Drawn, rule.draw);
    rows := AddOutcome(first, away, Drawn, rule.draw);
    forall x, c: Column | x in before
      ensures rows[x][c] == before[x][c] + When(x == home, VerdictPart(rule, false, false, c))
                                         + When(x == away, VerdictPart(rule, false, false, c))
    {
      OutcomePart(rule, false, false, c);
    }
  }

  method AddVerdict(before: Table, home: Entry, away: Entry, verdict: Verdict, rule: Rule) returns (rows: Table)
    requires FullTable(before, before.Keys) && home in before && away in before
    ensures FullTable(rows, before.Keys)
    ensures forall x, c: Column | x in before ::
      rows[x][c] == before[x][c] + When(x == home, VerdictPart(rule, verdict.HomeWin?, verdict.AwayWin?, c))
                                 + When(x == away, VerdictPart(rule, verdict.AwayWin?, verdict.HomeWin?, c))
  {
    match verdict {
      case HomeWin => rows := AddDecision(before, home, away, rule);
      case AwayWin => rows := AddDecision(before, away, home, rule);
      case Draw => rows := AddDraw(before, home, away, rule);
    }
  }

  /** The three parts of what a counted match gives an entry. */
  lemma {:induction false} ShareParts(m: CountedMatch, members: set<Entry>, rule: Rule, x: Entry, c: Column)
    requires Counts(m, members)
    ensures
      var home, away, verdict := m.entryA.value, m.entryB.value, VerdictOf(m);
      Share(m, members, rule, x, c) ==
        When(x == home, ScorePart(m.scoreA, m.scoreB, c)) + When(x == away, ScorePart(m.scoreB, m.scoreA, c)) +
        When(c.Disciplinary?, Discipline(m.events, x)) +
        When(x == home, VerdictPart(rule, verdict.HomeWin?, verdict.AwayWin?, c)) +
        When(x == away, VerdictPart(rule, verdict.AwayWin?, verdict.HomeWin?, c))
  {
  }

  method AddMatch(before: Table, m: CountedMatch, rule: Rule) returns (rows: Table)
    requires FullTable(before, before.Keys) && Counts(m, before.Keys)
    ensures FullTable(rows, before.Keys)
    ensures forall x, c: Column | x in before :: rows[x][c] == before[x][c] + Share(m, before.Keys, rule, x, c)
  {
    var home, away := m.entryA.value, m.entryB.value;
    var scored := AddSide(before, home, m.scoreA, m.scoreB);
    scored := AddSide(scored, away, m.scoreB, m.scoreA);
    var charged := AddDiscipline(scored, m.events);
    rows := AddVerdict(charged, home, away, VerdictOf(m), rule);
    forall x, c: Column | x in before
      ensures rows[x][c] == before[x][c] + Share(m, before.Keys, rule, x, c)
    {
      ShareParts(m, before.Keys, rule, x, c);
    }
  }

  lemma {:induction false} EmptyRowFull()
    ensures FullRow(EMPTY_ROW) && forall c: Column :: EMPTY_ROW[c] == 0.0
  {
    forall c: Column ensures c in EMPTY_ROW && EMPTY_ROW[c] == 0.0 {
      match c
      case Played =>
      case _ =>
    }
  }

  /** The table of the entries: every cell is what the matches add up to. */
  method Accumulate(entries: seq<Entry>, matches: seq<CountedMatch>, rule: Rule) returns (rows: Table)
    ensures FullTable(rows, Members(entries))
    ensures forall x, c: Column | x in rows :: rows[x][c] == Cell(matches, Members(entries), rule, x, c)
  {
    var members := Members(entries);
    EmptyRowFull();
    rows := map x | x in members :: EMPTY_ROW;
    for i := 0 to |matches|
      invariant FullTable(rows, members)
      invariant forall x, c: Column | x in members :: rows[x][c] == Cell(matches[..i], members, rule, x, c)
    {
      assert matches[..i + 1][..i] == matches[..i];
      if Counts(matches[i], members) {
        rows := AddMatch(rows, matches[i], rule);
      }
    }
    assert matches[..|matches|] == matches;
  }

  // ----- The table does not depend on the order of the matches -----

  lemma {:induction false} CellOfConcat(
      first: seq<CountedMatch>, second: seq<CountedMatch>, members: set<Entry>, rule: Rule, x: Entry, c: Column)
    ensures Cell(first + second, members, rule, x, c) ==
            Cell(first, members, rule, x, c) + Cell(second, members, rule, x, c)
  {
    if second == [] {
      assert first + second == first;
    } else {
      var n := |second| - 1;
      assert (first + second)[..|first| + n] == first + second[..n];
      CellOfConcat(first, second[..n], members, rule, x, c);
    }
  }

  lemma {:induction false} CellOfOne(m: CountedMatch, members: set<Entry>, rule: Rule, x: Entry, c: Column)
    ensures Cell([m], members, rule, x, c) == Share(m, members, rule, x, c)
  {
    assert [m][..0] == [];
    assert Cell([], members, rule, x, c) == 0.0;
  }

  lemma {:induction false} CancelOne<T>(a: multiset<T>, b: multiset<T>, x: T)
    requires a + multiset{x} == b + multiset{x}
    ensures a == b
  {
    assert (a + multiset{x}) - multiset{x} == a;
    assert (b + multiset{x}) - multiset{x} == b;
  }

  /** Taking the last element of one sequence out of a permutation of it leaves permutations. */
  lemma {:induction false} RemoveOne<T>(s: seq<T>, s': seq<T>) returns (before: seq<T>, after: seq<T>)
    requires s != [] && multiset(s) == multiset(s')
    ensures s' == before + ([s[|s| - 1]] + after)
    ensures multiset(s[..|s| - 1]) == multiset(before + after)
  {
    var n := |s| - 1;
    assert s == s[..n] + [s[n]];
    assert s[n] in multiset(s');
    var i :| 0 <= i < |s'| && s'[i] == s[n];
    before, after := s'[..i], s'[i + 1..];
    assert s' == before + ([s[n]] + after);
    CancelOne(multiset(s[..n]), multiset(before + after), s[n]);
  }

  lemma {:induction false} CellOfPermutation(
      matches: seq<CountedMatch>, matches': seq<CountedMatch>, members: set<Entry>, rule: Rule, x: Entry, c: Column)
    requires multiset(matches) == multiset(matches')
    ensures Cell(matches, members, rule, x, c) == Cell(matches', members, rule, x, c)
  {
    if matches == [] {
      assert |matches'| == |multiset(matches')| == 0;
    } else {
      var n := |matches| - 1;
      var last := matches[n];
      var before, after := RemoveOne(matches, matches');
      CellOfPermutation(matches[..n], before + after, members, rule, x, c);
      CellOfConcat(before, [last] + after, members, rule, x, c);
      CellOfConcat([last], after, members, rule, x, c);
      CellOfConcat(before, after, members, rule, x, c);
      CellOfOne(last, members, rule, x, c);
    }
  }

  // ----- Conservation -----

  /** The sum of one column over these entries. */
  function Total(entries: seq<Entry>, matches: seq<CountedMatch>, members: set<Entry>, rule: Rule, c: Column): real {
    if entries == [] then 0.0
    else
      var n := |entries| - 1;
      Total(entries[..n], matches, members, rule, c) + Cell(matches, members, rule, entries[n], c)
  }

  function TotalShare(entries: seq<Entry>, m: CountedMatch, members: set<Entry>, rule: Rule, c: Column): real {
    if entries == [] then 0.0
    else
      var n := |entries| - 1;
      TotalShare(entries[..n], m, members, rule, c) + Share(m, members, rule, entries[n], c)
  }

  lemma {:induction false} TotalAppend(
      entries: seq<Entry>, matches: seq<CountedMatch>, m: CountedMatch, members: set<Entry>, rule: Rule, c: Column)
    ensures Total(entries, matches + [m], members, rule, c) ==
            Total(entries, matches, members, rule, c) + TotalShare(entries, m, members, rule, c)
  {
    if entries != [] {
      TotalAppend(entries[..|entries| - 1], matches, m, members, rule, c);
      assert (matches + [m])[..|matches|] == matches;
    }
  }

  /** Each side of a counted match lands on exactly one row. */
  lemma {:induction false} TotalShareOfMatch(
      entries: seq<Entry>, m: CountedMatch, members: set<Entry>, rule: Rule, c: Column)
    requires Distinct(entries) && Counts(m, members) && !c.Disciplinary?
    ensures TotalShare(entries, m, members, rule, c) ==
            When(m.entryA.value in entries, HomeShare(m, rule, c)) + When(m.entryB.value in entries, AwayShare(m, rule, c))
  {
    if entries != [] {
      var n := |entries| - 1;
      TotalShareOfMatch(entries[..n], m, members, rule, c);
      assert entries == entries[..n] + [entries[n]] && entries[n] !in entries[..n];
      OneMoreEntry(entries[..n], entries[n], m.entryA.value, HomeShare(m, rule, c));
      OneMoreEntry(entries[..n], entries[n], m.entryB.value, AwayShare(m, rule, c));
    }
  }

  lemma {:induction false} OneMoreEntry(before: seq<Entry>, last: Entry, x: Entry, amount: real)
    requires last !in before
    ensures When(x in before + [last], amount) == When(x in before, amount) + When(x == last, amount)
  {
  }

  lemma {:induction false} TotalShareUncounted(
      entries: seq<Entry>, m: CountedMatch, members: set<Entry>, rule: Rule, c: Column)
    requires !Counts(m, members)
    ensures TotalShare(entries, m, members, rule, c) == 0.0
  {
    if entries != [] {
      TotalShareUncounted(entries[..|entries| - 1], m, members, rule, c);
    }
  }

  lemma {:induction false} TotalOfNoMatches(entries: seq<Entry>, members: set<Entry>, rule: Rule, c: Column)
    ensures Total(entries, [], members, rule, c) == 0.0
  {
    if entries != [] {
      TotalOfNoMatches(entries[..|entries| - 1], members, rule, c);
    }
  }

  /** Two columns that every match feeds equally have the same total. */
  lemma {:induction false} BalancedColumns(
      entries: seq<Entry>, matches: seq<CountedMatch>, rule: Rule, c: Column, d: Column)
    requires Distinct(entries)
    requires (c == Won && d == Lost) || (c == ScoreFor && d == ScoreAgainst)
    ensures Total(entries, matches, Members(entries), rule, c) == Total(entries, matches, Members(entries), rule, d)
  {
    var members := Members(entries);
    if matches == [] {
      TotalOfNoMatches(entries, members, rule, c);
      TotalOfNoMatches(entries, members, rule, d);
    } else {
      var n := |matches| - 1;
      BalancedColumns(entries, matches[..n], rule, c, d);
      assert matches == matches[..n] + [matches[n]];
      TotalAppend(entries, matches[..n], matches[n], members, rule, c);
      TotalAppend(entries, matches[..n], matches[n], members, rule, d);
      if Counts(matches[n], members) {
        TotalShareOfMatch(entries, matches[n], members, rule, c);
        TotalShareOfMatch(entries, matches[n], members, rule, d);
      } else {
        TotalShareUncounted(entries, matches[n], members, rule, c);
        TotalShareUncounted(entries, matches[n], members, rule, d);
      }
    }
  }

  /** Over a whole table, wins equal losses and what is scored equals what is conceded. */
  lemma {:induction false} TableConserves(entries: seq<Entry>, matches: seq<CountedMatch>, rule: Rule)
    requires Distinct(entries)
    ensures Total(entries, matches, Members(entries), rule, Won) == Total(entries, matches, Members(entries), rule, Lost)
    ensures
      Total(entries, matches, Members(entries), rule, ScoreFor) ==
      Total(entries, matches, Members(entries), rule, ScoreAgainst)
  {
    BalancedColumns(entries, matches, rule, Won, Lost);
    BalancedColumns(entries, matches, rule, ScoreFor, ScoreAgainst);
  }

  /** In every row, played is won plus drawn plus lost. */
  lemma {:induction false} RowAddsUp(matches: seq<CountedMatch>, members: set<Entry>, rule: Rule, x: Entry)
    ensures
      Cell(matches, members, rule, x, Played) ==
      Cell(matches, members, rule, x, Won) + Cell(matches, members, rule, x, Drawn) + Cell(matches, members, rule, x, Lost)
  {
    if matches != [] {
      RowAddsUp(matches[..|matches| - 1], members, rule, x);
    }
  }
}
