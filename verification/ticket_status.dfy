/** Ticket statuses and the moves between them. */
module TicketStatuses {

  datatype TicketStatus = New | Open | Pending | OnHold | Solved | Closed

  /** A ticket may always be moved to the status it already has. */
  predicate AllowedTransition(from: TicketStatus, to: TicketStatus) {
    from == to ||
    match from
    case New => to == Open || to == Solved
    case Open => to == Pending || to == OnHold || to == Solved
    case Pending => to == Open || to == Solved
    case OnHold => to == Open || to == Solved
    case Solved => to == Open || to == Closed
    case Closed => false
  }

  /** The moves between different statuses. */
  ghost predicate ListedMove(from: TicketStatus, to: TicketStatus) {
    (from, to) in {
      (New, Open), (New, Solved),
      (Open, Pending), (Open, OnHold), (Open, Solved),
      (Pending, Open), (Pending, Solved),
      (OnHold, Open), (OnHold, Solved),
      (Solved, Open), (Solved, Closed)}
  }

  lemma AllowedIff(from: TicketStatus, to: TicketStatus)
    ensures AllowedTransition(from, to) <==> from == to || ListedMove(from, to)
  {}
}
