/**
  The modal ticket view's transition policy. It carries its own, shorter
  transition table (seven entries, no IN_PROGRESS or RESOLVED sources) and
  does not narrow it by role. Its edit, delete and status-change
  predicates are the same expressions as the detail view's and are
  reused from `TicketView`.
 */
module TicketModal {
  import opened Common
  import opened TicketTypes
  import TicketView

  /** The modal's transition table; a status without an entry yields `[]` (`transitions[status] || []`). */
  function ModalTable(s: TicketStatus): seq<TicketStatus>
  {
    match s
    case DRAFT => [CREATED]
    case CREATED => [ACTIVE, APPROVED, CANCELLED]
    case APPROVED => [ACTIVE, CANCELLED]
    case ACTIVE => [COMPLETED, CANCELLED]
    case CLOSED => [ACTIVE]
    case COMPLETED => [ACTIVE]
    case CANCELLED => [CREATED]
    case IN_PROGRESS => []
    case RESOLVED => []
  }

  /** `getAvailableStatusTransitions` in the modal: every role gets the table entry unfiltered. */
  function ModalTransitions(user: Option<User>, t: Ticket): (r: seq<TicketStatus>)
    ensures user.None? ==> r == []
    ensures user.Some? ==> r == ModalTable(t.status)
  {
    if user.None? then []
    else
      match user.value.role
      case EO => ModalTable(t.status)
      case DO => ModalTable(t.status)
      case EMPLOYEE => ModalTable(t.status)
  }

  /** The modal table has no way out of IN_PROGRESS or RESOLVED, and from ACTIVE offers exactly COMPLETED and CANCELLED. */
  lemma ModalTableGaps()
    ensures ModalTable(IN_PROGRESS) == [] && ModalTable(RESOLVED) == []
    ensures ModalTable(ACTIVE) == [COMPLETED, CANCELLED]
    ensures forall s :: IN_PROGRESS !in ModalTable(s) && RESOLVED !in ModalTable(s)
  {
  }

  /** Every edge of the modal table is an edge of the detail view's table; the converse fails. */
  lemma ModalTableWithinViewTable(s: TicketStatus)
    ensures forall x :: x in ModalTable(s) ==> x in TicketView.ViewTable(s)
    ensures IN_PROGRESS in TicketView.ViewTable(ACTIVE) && IN_PROGRESS !in ModalTable(ACTIVE)
  {
  }

  /**
    The two views disagree for a creator EMPLOYEE on a CREATED ticket: the
    modal offers ACTIVE, APPROVED and CANCELLED (and its status button is
    shown), the detail view offers nothing.
   */
  lemma CreatorEmployeeOnCreatedTicket(u: User, t: Ticket)
    requires u.role == EMPLOYEE && t.createdBy == u.id && t.status == CREATED
    ensures TicketView.CanChangeStatus(Some(u), t)
    ensures ModalTransitions(Some(u), t) == [ACTIVE, APPROVED, CANCELLED]
    ensures TicketView.ViewTransitions(Some(u), t) == []
  {
  }

  /** Whatever the role, the detail view never offers more than the modal would, except along IN_PROGRESS and RESOLVED. */
  lemma ViewWithinModalOffPath(user: Option<User>, t: Ticket, x: TicketStatus)
    requires x in TicketView.ViewTransitions(user, t)
    requires x != IN_PROGRESS && x != RESOLVED && t.status != IN_PROGRESS && t.status != RESOLVED
    ensures x in ModalTransitions(user, t)
  {
  }
}
