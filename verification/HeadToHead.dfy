/** What one number, points times a thousand plus balance, can and cannot express about a tied block. */
module HeadToHead {
  import opened Wrappers
  import opened Entries
  import opened Standings
  import opened Ranking

  function Abs(r: real): real {
    if r < 0.0 then -r else r
  }

  /** The score differences of the matches inside the block, added up. */
  function TotalMargin(matches: seq<CountedMatch>, block: set<Entry>): real {
    if matches == [] then 0.0
    else
      var m := matches[|matches| - 1];
      TotalMargin(matches[..|matches| - 1], block) + if Counts(m, block) then Abs(m.scoreA - m.scoreB) else 0.0
  }

  function MiniPoints(g: Group, block: set<Entry>, x: Entry): real {
    Cell(g.matches, block, g.rule, x, TablePoints)
  }

  function MiniBalance(g: Group, block: set<Entry>, x: Entry): real {
    Cell(g.matches, block, g.rule, x, ScoreFor) - Cell(g.matches, block, g.rule, x, ScoreAgainst)
  }

  // ----- Whole multiples of a unit -----

  function Times(n: nat, unit: real): real {
    if n == 0 then 0.0 else Times(n - 1, unit) + unit
  }

  function Scaled(n: int, unit: real): real {
    if n >= 0 then Times(n, unit) else -Times(-n, unit)
  }

  ghost predicate Multiple(r: real, unit: real) {
    exists n: int :: r == Scaled(n, unit)
  }

  /** All points are multiples of the unit. */
  ghost predicate OnGrid(rule: Rule, unit: real) {
    unit > 0.0 && Multiple(rule.win, unit) && Multiple(rule.draw, unit) && Multiple(rule.loss, unit)
  }

  lemma {:induction false} TimesSum(m: nat, n: nat, unit: real)
    ensures Times(m + n, unit) == Times(m, unit) + Times(n, unit)
  {
    if n > 0 {
      TimesSum(m, n - 1, unit);
    }
  }

  lemma {:induction false} ScaledSum(m: int, n: int, unit: real)
    ensures Scaled(m + n, unit) == Scaled(m, unit) + Scaled(n, unit)
  {
    if m >= 0 && n >= 0 {
      TimesSum(m, n, unit);
    } else if m < 0 && n < 0 {
      TimesSum(-m, -n, unit);
    } else if m + n >= 0 {
      TimesSum(m + n, if m < 0 then -m else -n, unit);
    } else {
      TimesSum(-(m + n), if m >= 0 then m else n, unit);
    }
  }

  lemma {:induction false} MultipleSum(a: real, b: real, unit: real)
    requires Multiple(a, unit) && Multiple(b, unit)
    ensures Multiple(a + b, unit)
  {
    var m :| a == Scaled(m, unit);
    var n :| b == Scaled(n, unit);
    ScaledSum(m, n, unit);
  }

  lemma {:induction false} TimesAtLeast(n: nat, unit: real)
    requires unit > 0.0
    ensures Times(n, unit) >= 0.0 && (n > 0 ==> Times(n, unit) >= unit)
  {
    if n > 0 {
      TimesAtLeast(n - 1, unit);
    }
  }

  lemma {:induction false} TimesNegated(n: nat, unit: real)
    ensures Times(n, -unit) == -Times(n, unit) && Times(n, 0.0) == 0.0
  {
    if n > 0 {
      TimesNegated(n - 1, unit);
    }
  }

  lemma {:induction false} MultiplesApart(a: real, b: real, unit: real)
    requires unit > 0.0 && Multiple(a, unit) && Multiple(b, unit) && a > b
    ensures a >= b + unit
  {
    var m :| a == Scaled(m, unit);
    var n :| b == Scaled(n, unit);
    ScaledSum(m - n, n, unit);
    TimesAtLeast(if m >= n then m - n else n - m, unit);
  }

  // ----- What the value can express -----

  /** The head to head value puts x over y exactly when points do, or balance does at equal points. */
  predicate Lexicographic(g: Group, block: set<Entry>, x: Entry, y: Entry) {
    Value(g, Criterion.HeadToHead, block, x) > Value(g, Criterion.HeadToHead, block, y) <==>
    MiniPoints(g, block, x) > MiniPoints(g, block, y) ||
    (MiniPoints(g, block, x) == MiniPoints(g, block, y) && MiniBalance(g, block, x) > MiniBalance(g, block, y))
  }

  /** What the value needs of the gaps in points and in balance: points must outweigh a balance that goes against them. */
  predicate PointsPrevail(points: real, balance: real) {
    (points > 0.0 ==> -balance < 1000.0 * points) && (points < 0.0 ==> balance < -1000.0 * points)
  }

  /** For every rule and block: the value orders two entries by points, then balance, if and only if points prevail. */
  lemma {:induction false} LexicographicExactly(g: Group, block: set<Entry>, x: Entry, y: Entry)
    ensures
      Lexicographic(g, block, x, y) && Lexicographic(g, block, y, x) <==>
      PointsPrevail(MiniPoints(g, block, x) - MiniPoints(g, block, y), MiniBalance(g, block, x) - MiniBalance(g, block, y))
  {
  }

  // ----- Margins that are small enough -----

  lemma {:induction false} PointsOnGrid(matches: seq<CountedMatch>, block: set<Entry>, rule: Rule, unit: real, x: Entry)
    requires OnGrid(rule, unit)
    ensures Multiple(Cell(matches, block, rule, x, TablePoints), unit)
  {
    if matches == [] {
      assert Scaled(0, unit) == 0.0;
    } else {
      var n := |matches| - 1;
      PointsOnGrid(matches[..n], block, rule, unit, x);
      ShareOnGrid(matches[n], block, rule, unit, x);
      MultipleSum(Cell(matches[..n], block, rule, x, TablePoints), Share(matches[n], block, rule, x, TablePoints), unit);
    }
  }

  lemma {:induction false} ShareOnGrid(m: CountedMatch, block: set<Entry>, rule: Rule, unit: real, x: Entry)
    requires OnGrid(rule, unit)
    ensures Multiple(Share(m, block, rule, x, TablePoints), unit)
  {
    assert Scaled(0, unit) == 0.0;
    if Counts(m, block) {
      MultipleSum(When(m.entryA == Some(x), HomeShare(m, rule, TablePoints)),
                  When(m.entryB == Some(x), AwayShare(m, rule, TablePoints)), unit);
    }
  }

  /** One match moves two balances apart by at most twice its margin. */
  lemma {:induction false} ShareGap(m: CountedMatch, block: set<Entry>, rule: Rule, x: Entry, y: Entry)
    ensures
      Abs((Share(m, block, rule, x, ScoreFor) - Share(m, block, rule, x, ScoreAgainst)) -
          (Share(m, block, rule, y, ScoreFor) - Share(m, block, rule, y, ScoreAgainst)))
      <= 2.0 * if Counts(m, block) then Abs(m.scoreA - m.scoreB) else 0.0
  {
  }

  lemma {:induction false} BalanceGap(g: Group, block: set<Entry>, x: Entry, y: Entry)
    ensures Abs(MiniBalance(g, block, x) - MiniBalance(g, block, y)) <= 2.0 * TotalMargin(g.matches, block)
    decreases |g.matches|
  {
    if g.matches != [] {
      var n := |g.matches| - 1;
      BalanceGap(g.(matches := g.matches[..n]), block, x, y);
      ShareGap(g.matches[n], block, g.rule, x, y);
    }
  }

  /** With points in multiples of a unit and mutual margins under 500 units, the value orders by points, then balance. */
  lemma {:induction false} HeadToHeadIsLexicographic(g: Group, block: set<Entry>, unit: real, x: Entry, y: Entry)
    requires OnGrid(g.rule, unit) && TotalMargin(g.matches, block) < 500.0 * unit
    ensures Lexicographic(g, block, x, y)
  {
    PointsOnGrid(g.matches, block, g.rule, unit, x);
    PointsOnGrid(g.matches, block, g.rule, unit, y);
    BalanceGap(g, block, x, y);
    if MiniPoints(g, block, x) > MiniPoints(g, block, y) {
      MultiplesApart(MiniPoints(g, block, x), MiniPoints(g, block, y), unit);
    } else if MiniPoints(g, block, y) > MiniPoints(g, block, x) {
      MultiplesApart(MiniPoints(g, block, y), MiniPoints(g, block, x), unit);
    }
    LexicographicExactly(g, block, x, y);
  }

  // ----- The limit is sharp, for every rule -----

  /** Some whole numbers of wins, draws and losses are worth one unit together; negative ones count against. */
  predicate Generates(rule: Rule, unit: real, wins: int, draws: int, losses: int) {
    unit == Scaled(wins, rule.win) + Scaled(draws, rule.draw) + Scaled(losses, rule.loss)
  }

  /** A match without goals; the winner, if any, was decided otherwise. */
  function Goalless(home: Entry, away: Entry, winner: Option<Entry>): CountedMatch {
    CountedMatch(Some(home), Some(away), winner, 0.0, 0.0, [])
  }

  function Copies(m: CountedMatch, n: nat): seq<CountedMatch> {
    if n == 0 then [] else Copies(m, n - 1) + [m]
  }

  /** n results of this kind of entry 1 against entry 3; if n is negative, -n of entry 2 against it. */
  function Outweigh(n: int, forOne: CountedMatch, forTwo: CountedMatch): seq<CountedMatch> {
    if n >= 0 then Copies(forOne, n) else Copies(forTwo, -n)
  }

  /** Goalless results that put entry 1 ahead by a unit more than the match it then loses to entry 2 costs it. */
  function GoallessPart(wins: int, draws: int, losses: int): seq<CountedMatch> {
    Outweigh(wins + 1, Goalless(1, 3, Some(1)), Goalless(2, 3, Some(2))) +
    (Outweigh(draws, Goalless(1, 3, None), Goalless(2, 3, None)) +
     Outweigh(losses - 1, Goalless(1, 3, Some(3)), Goalless(2, 3, Some(3))))
  }

  function Sharp(rule: Rule, unit: real, wins: int, draws: int, losses: int): Group {
    Group(GoallessPart(wins, draws, losses) + [CountedMatch(Some(2), Some(1), Some(2), 500.0 * unit, 0.0, [])],
          {1, 2, 3}, rule)
  }

  /** The lead of entry 1 over entry 2 in a column. */
  function Lead(matches: seq<CountedMatch>, rule: Rule, c: Column): real {
    Cell(matches, {1, 2, 3}, rule, 1, c) - Cell(matches, {1, 2, 3}, rule, 2, c)
  }

  lemma {:induction false} LeadOfConcat(first: seq<CountedMatch>, second: seq<CountedMatch>, rule: Rule, c: Column)
    ensures Lead(first + second, rule, c) == Lead(first, rule, c) + Lead(second, rule, c)
  {
    CellOfConcat(first, second, {1, 2, 3}, rule, 1, c);
    CellOfConcat(first, second, {1, 2, 3}, rule, 2, c);
  }

  lemma {:induction false} LeadOfOne(m: CountedMatch, rule: Rule, c: Column)
    ensures Lead([m], rule, c) == Share(m, {1, 2, 3}, rule, 1, c) - Share(m, {1, 2, 3}, rule, 2, c)
  {
    CellOfOne(m, {1, 2, 3}, rule, 1, c);
    CellOfOne(m, {1, 2, 3}, rule, 2, c);
  }

  lemma {:induction false} LeadOfCopies(m: CountedMatch, n: nat, rule: Rule, c: Column)
    ensures Lead(Copies(m, n), rule, c) == Times(n, Lead([m], rule, c))
  {
    if n > 0 {
      LeadOfCopies(m, n - 1, rule, c);
      LeadOfConcat(Copies(m, n - 1), [m], rule, c);
    }
  }

  lemma {:induction false} LeadOfOutweigh(n: int, forOne: CountedMatch, forTwo: CountedMatch, rule: Rule, c: Column)
    requires Lead([forTwo], rule, c) == -Lead([forOne], rule, c)
    ensures Lead(Outweigh(n, forOne, forTwo), rule, c) == Scaled(n, Lead([forOne], rule, c))
  {
    if n >= 0 {
      LeadOfCopies(forOne, n, rule, c);
    } else {
      LeadOfCopies(forTwo, -n, rule, c);
      TimesNegated(-n, Lead([forOne], rule, c));
    }
  }

  /** What one goalless result of this kind is worth. */
  lemma {:induction false} LeadOfGoalless(rule: Rule, winnerOne: Option<Entry>, winnerTwo: Option<Entry>, c: Column)
    requires c == TablePoints || c == ScoreFor || c == ScoreAgainst
    requires (winnerOne, winnerTwo) in {(Some(1), Some(2)), (None, None), (Some(3), Some(3))}
    ensures
      Lead([Goalless(1, 3, winnerOne)], rule, c) ==
      When(c == TablePoints, if winnerOne == Some(1) then rule.win else if winnerOne.None? then rule.draw else rule.loss)
    ensures Lead([Goalless(2, 3, winnerTwo)], rule, c) == -Lead([Goalless(1, 3, winnerOne)], rule, c)
  {
    LeadOfOne(Goalless(1, 3, winnerOne), rule, c);
    LeadOfOne(Goalless(2, 3, winnerTwo), rule, c);
  }

  lemma {:induction false} LeadOfGoallessPart(rule: Rule, wins: int, draws: int, losses: int, c: Column)
    requires c == TablePoints || c == ScoreFor || c == ScoreAgainst
    ensures
      Lead(GoallessPart(wins, draws, losses), rule, c) ==
      When(c == TablePoints,
           Scaled(wins + 1, rule.win) + Scaled(draws, rule.draw) + Scaled(losses - 1, rule.loss))
  {
    LeadOfGoalless(rule, Some(1), Some(2), c);
    LeadOfGoalless(rule, None, None, c);
    LeadOfGoalless(rule, Some(3), Some(3), c);
    var won := Outweigh(wins + 1, Goalless(1, 3, Some(1)), Goalless(2, 3, Some(2)));
    var drawn := Outweigh(draws, Goalless(1, 3, None), Goalless(2, 3, None));
    var lost := Outweigh(losses - 1, Goalless(1, 3, Some(3)), Goalless(2, 3, Some(3)));
    LeadOfOutweigh(wins + 1, Goalless(1, 3, Some(1)), Goalless(2, 3, Some(2)), rule, c);
    LeadOfOutweigh(draws, Goalless(1, 3, None), Goalless(2, 3, None), rule, c);
    LeadOfOutweigh(losses - 1, Goalless(1, 3, Some(3)), Goalless(2, 3, Some(3)), rule, c);
    LeadOfConcat(drawn, lost, rule, c);
    LeadOfConcat(won, drawn + lost, rule, c);
    ScaledZero(wins + 1);
    ScaledZero(draws);
    ScaledZero(losses - 1);
  }

  lemma {:induction false} ScaledZero(n: int)
    ensures Scaled(n, 0.0) == 0.0
  {
    TimesNegated(if n >= 0 then n else -n, 0.0);
  }

  predicate AllGoalless(matches: seq<CountedMatch>) {
    forall i | 0 <= i < |matches| :: matches[i].scoreA == matches[i].scoreB
  }

  lemma {:induction false} NoMargin(matches: seq<CountedMatch>, block: set<Entry>)
    requires AllGoalless(matches)
    ensures TotalMargin(matches, block) == 0.0
  {
    if matches != [] {
      NoMargin(matches[..|matches| - 1], block);
    }
  }

  lemma {:induction false} CopiesGoalless(m: CountedMatch, n: nat)
    requires m.scoreA == m.scoreB
    ensures AllGoalless(Copies(m, n))
  {
    if n > 0 {
      CopiesGoalless(m, n - 1);
    }
  }

  lemma {:induction false} OutweighGoalless(n: int, winnerOne: Option<Entry>, winnerTwo: Option<Entry>)
    ensures AllGoalless(Outweigh(n, Goalless(1, 3, winnerOne), Goalless(2, 3, winnerTwo)))
  {
    if n >= 0 {
      CopiesGoalless(Goalless(1, 3, winnerOne), n);
    } else {
      CopiesGoalless(Goalless(2, 3, winnerTwo), -n);
    }
  }

  lemma {:induction false} MarginOfSharp(rule: Rule, unit: real, wins: int, draws: int, losses: int)
    requires unit > 0.0
    ensures TotalMargin(Sharp(rule, unit, wins, draws, losses).matches, {1, 2, 3}) == 500.0 * unit
  {
    var part, all := GoallessPart(wins, draws, losses), Sharp(rule, unit, wins, draws, losses).matches;
    OutweighGoalless(wins + 1, Some(1), Some(2));
    OutweighGoalless(draws, None, None);
    OutweighGoalless(losses - 1, Some(3), Some(3));
    NoMargin(part, {1, 2, 3});
    assert all[..|all| - 1] == part;
  }

  /** At a margin of 500 units entry 1 is a unit ahead of entry 2 in points, and yet their values are the same. */
  lemma {:induction false} LimitLevelsTheValues(rule: Rule, unit: real, wins: int, draws: int, losses: int)
    requires unit > 0.0 && Generates(rule, unit, wins, draws, losses)
    ensures
      var g := Sharp(rule, unit, wins, draws, losses);
      && TotalMargin(g.matches, {1, 2, 3}) == 500.0 * unit
      && MiniPoints(g, {1, 2, 3}, 1) == MiniPoints(g, {1, 2, 3}, 2) + unit
      && Value(g, Criterion.HeadToHead, {1, 2, 3}, 1) == Value(g, Criterion.HeadToHead, {1, 2, 3}, 2)
  {
    var last := CountedMatch(Some(2), Some(1), Some(2), 500.0 * unit, 0.0, []);
    var part := GoallessPart(wins, draws, losses);
    MarginOfSharp(rule, unit, wins, draws, losses);
    LeadAfterRout(rule, unit, part, last, TablePoints);
    LeadAfterRout(rule, unit, part, last, ScoreFor);
    LeadAfterRout(rule, unit, part, last, ScoreAgainst);
    LeadOfGoallessPart(rule, wins, draws, losses, TablePoints);
    LeadOfGoallessPart(rule, wins, draws, losses, ScoreFor);
    LeadOfGoallessPart(rule, wins, draws, losses, ScoreAgainst);
    OneMoreWin(rule, wins, losses);
  }

  lemma {:induction false} LeadAfterRout(rule: Rule, unit: real, part: seq<CountedMatch>, last: CountedMatch, c: Column)
    requires last == CountedMatch(Some(2), Some(1), Some(2), 500.0 * unit, 0.0, [])
    requires c == TablePoints || c == ScoreFor || c == ScoreAgainst
    ensures
      Lead(part + [last], rule, c) == Lead(part, rule, c) +
        if c == TablePoints then rule.loss - rule.win else if c == ScoreFor then -500.0 * unit else 500.0 * unit
  {
    LeadOfConcat(part, [last], rule, c);
    LeadOfOne(last, rule, c);
  }

  lemma {:induction false} OneMoreWin(rule: Rule, wins: int, losses: int)
    ensures Scaled(wins + 1, rule.win) == Scaled(wins, rule.win) + rule.win
    ensures Scaled(losses - 1, rule.loss) == Scaled(losses, rule.loss) - rule.loss
  {
    ScaledSum(wins, 1, rule.win);
    ScaledSum(losses - 1, 1, rule.loss);
    assert Scaled(1, rule.win) == Times(0, rule.win) + rule.win;
    assert Scaled(1, rule.loss) == Times(0, rule.loss) + rule.loss;
  }

  /** Under this rule, no total margin up to the limit makes the value differ from points, then balance. */
  ghost predicate LexicographicUpTo(rule: Rule, limit: real) {
    forall g: Group, block: set<Entry>, x: Entry, y: Entry ::
      g.rule == rule && TotalMargin(g.matches, block) <= limit ==> Lexicographic(g, block, x, y)
  }

  /** The exact limit of a rule: 500 times the least difference in points that its results can make. */
  lemma {:induction false} LexicographicBelowExactly(
      rule: Rule, unit: real, wins: int, draws: int, losses: int, limit: real)
    requires OnGrid(rule, unit) && Generates(rule, unit, wins, draws, losses)
    ensures LexicographicUpTo(rule, limit) <==> limit < 500.0 * unit
  {
    if limit < 500.0 * unit {
      forall g: Group, block: set<Entry>, x: Entry, y: Entry
        | g.rule == rule && TotalMargin(g.matches, block) <= limit
        ensures Lexicographic(g, block, x, y)
      {
        HeadToHeadIsLexicographic(g, block, unit, x, y);
      }
    } else {
      var g := Sharp(rule, unit, wins, draws, losses);
      LimitLevelsTheValues(rule, unit, wins, draws, losses);
      assert !Lexicographic(g, {1, 2, 3}, 1, 2);
    }
  }

  /** The presets: 500 where a draw or a loss is worth one point, 1500 where only wins count, 250 at half points. */
  lemma {:induction false} LimitsOfThePresets(limit: real)
    ensures LexicographicUpTo(Rule(3.0, 1.0, 0.0), limit) <==> limit < 500.0
    ensures LexicographicUpTo(Rule(2.0, 0.0, 1.0), limit) <==> limit < 500.0
    ensures LexicographicUpTo(Rule(3.0, 0.0, 0.0), limit) <==> limit < 1500.0
    ensures LexicographicUpTo(Rule(1.0, 0.5, 0.0), limit) <==> limit < 250.0
  {
    SmallMultiples(1.0);
    SmallMultiples(3.0);
    SmallMultiples(0.5);
    LexicographicBelowExactly(Rule(3.0, 1.0, 0.0), 1.0, 0, 1, 0, limit);
    LexicographicBelowExactly(Rule(2.0, 0.0, 1.0), 1.0, 0, 0, 1, limit);
    LexicographicBelowExactly(Rule(3.0, 0.0, 0.0), 3.0, 1, 0, 0, limit);
    LexicographicBelowExactly(Rule(1.0, 0.5, 0.0), 0.5, 0, 1, 0, limit);
  }

  lemma {:induction false} SmallMultiples(unit: real)
    ensures Multiple(0.0, unit) && Multiple(unit, unit) && Multiple(2.0 * unit, unit) && Multiple(3.0 * unit, unit)
    ensures Scaled(0, unit) == 0.0 && Scaled(1, unit) == unit
  {
    assert Times(1, unit) == Times(0, unit) + unit;
    assert Times(2, unit) == Times(1, unit) + unit;
    assert Times(3, unit) == Times(2, unit) + unit;
    assert Scaled(0, unit) == 0.0 && Scaled(1, unit) == unit;
    assert Scaled(2, unit) == 2.0 * unit && Scaled(3, unit) == 3.0 * unit;
  }
}
