/** The life cycle of a match row. */
module Statuses {

  datatype Status = Scheduled | Live | Finished | Postponed | Cancelled | Walkover

  /** A result that counts for the table and for the bracket. */
  predicate Official(status: Status) {
    status.Finished? || status.Walkover?
  }

  /** The status changes `match/update` allows. */
  predicate CanTransition(from: Status, to: Status) {
    match from
    case Scheduled => !to.Finished?
    case Live => !to.Scheduled? && !to.Cancelled?
    case Postponed => !to.Live? && !to.Finished?
    case _ => from == to
  }

  /** Every status may be kept; the others that may follow it. */
  function Following(from: Status): set<Status> {
    match from
    case Scheduled => {Live, Postponed, Cancelled, Walkover}
    case Live => {Finished, Postponed, Walkover}
    case Postponed => {Scheduled, Cancelled, Walkover}
    case Finished | Cancelled | Walkover => {}
  }

  /** Finished, cancelled and walkover are final; only a live match is finished, and only a scheduled one goes live. */
  lemma {:induction false} TransitionsExactly(from: Status, to: Status)
    ensures CanTransition(from, to) <==> to == from || to in Following(from)
  {
  }
}
