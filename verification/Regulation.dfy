/** The part of a discipline's regulation that decides sets and periods. */
module Regulation {
  import opened Wrappers

  datatype Side = Home | Away

  function Opponent(side: Side): Side {
    match side
    case Home => Away
    case Away => Home
  }

  datatype Completion =
    | Periods(allowDraw: bool, overtimePeriods: nat)
    | Sets(setsToWin: nat, pointsToWinSet: nat, pointsToWinDecidingSet: nat, minAdvantage: nat)
    | Board(allowDraw: bool, winPoints: nat, drawPoints: nat)
    | Result(allowDraw: bool)

  datatype Rules = Rules(periodCount: nat, hasClock: bool, completion: Completion)

  /** What the regulation parser guarantees: every number of a sets regulation is positive. */
  predicate Valid(rules: Rules) {
    && rules.periodCount > 0
    && (rules.completion.Sets? ==> ValidSets(rules.completion))
  }

  predicate ValidSets(c: Completion) {
    c.Sets? && c.setsToWin > 0 && c.pointsToWinSet > 0 && c.pointsToWinDecidingSet > 0 && c.minAdvantage > 0
  }

  function PeriodCount(rules: Rules): int {
    if rules.completion.Sets? then rules.completion.setsToWin * 2 - 1 else rules.periodCount
  }

  function Max(a: int, b: int): int {
    if a >= b then a else b
  }

  function Min(a: int, b: int): int {
    if a <= b then a else b
  }

  /** Points a set is played to; from the deciding set on, the shorter target applies. */
  function TargetPoints(c: Completion, period: int): nat
    requires c.Sets?
  {
    if period >= c.setsToWin * 2 - 1 then c.pointsToWinDecidingSet else c.pointsToWinSet
  }

  /** The side that has won the open set, if any. */
  function SetWinner(c: Completion, period: int, scoreA: int, scoreB: int): Option<Side>
    requires c.Sets?
  {
    if Max(scoreA, scoreB) < TargetPoints(c, period) || Max(scoreA, scoreB) - Min(scoreA, scoreB) < c.minAdvantage then
      None
    else
      Some(if scoreA > scoreB then Home else Away)
  }
}
