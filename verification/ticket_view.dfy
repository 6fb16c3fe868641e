/**
  The ticket detail view's access policy: who may edit, delete or change
  the status of a ticket, and which target statuses the status dialog
  offers. This view holds the nine-entry transition table and narrows it
  by role. The logged-in user is an `Option` (`user` may be null).
 */
module TicketView {
  import opened Common
  import opened TicketTypes

  /** The full transition table of the detail view, one entry per status. */
  function ViewTable(s: TicketStatus): seq<TicketStatus>
  {
    match s
    case DRAFT => [CREATED]
    case CREATED => [ACTIVE, APPROVED, CANCELLED]
    case APPROVED => [ACTIVE, CANCELLED]
    case ACTIVE => [IN_PROGRESS, COMPLETED, CANCELLED]
    case IN_PROGRESS => [RESOLVED, CANCELLED]
    case RESOLVED => [COMPLETED]
    case CLOSED => [ACTIVE]
    case COMPLETED => [ACTIVE]
    case CANCELLED => [CREATED]
  }

  /** Every status has an outgoing entry, none leads to CLOSED, none is a self-loop. */
  lemma ViewTableShape(s: TicketStatus)
    ensures |ViewTable(s)| >= 1 && NoDuplicates(ViewTable(s))
    ensures CLOSED !in ViewTable(s) && s !in ViewTable(s)
  {
  }

  /** `getAvailableStatusTransitions` in the detail view. */
  function ViewTransitions(user: Option<User>, t: Ticket): (r: seq<TicketStatus>)
    ensures forall x :: x in r ==> x in ViewTable(t.status)
    ensures user.None? ==> r == []
  {
    if user.None? then []
    else
      var all := ViewTable(t.status);
      match user.value.role
      case EO => all
      case DO =>
        if t.status == ACTIVE then [IN_PROGRESS]
        else if t.status == IN_PROGRESS then [RESOLVED]
        else []
      case EMPLOYEE =>
        if t.status == DRAFT then [CREATED] else []
  }

  /** An EO gets exactly the table entry for the ticket's status. */
  lemma EoGetsWholeTableEntry(u: User, t: Ticket)
    requires u.role == EO
    ensures ViewTransitions(Some(u), t) == ViewTable(t.status)
  {
  }

  /**
    A DO gets IN_PROGRESS from ACTIVE, RESOLVED from IN_PROGRESS, and nothing
    otherwise; neither the department nor the creator plays a part.
   */
  lemma DoTransitionsIgnoreOwnership(u: User, t: Ticket, t': Ticket)
    requires u.role == DO && t'.status == t.status
    ensures ViewTransitions(Some(u), t) == ViewTransitions(Some(u), t')
    ensures ViewTransitions(Some(u), t) ==
      if t.status == ACTIVE then [IN_PROGRESS]
      else if t.status == IN_PROGRESS then [RESOLVED]
      else []
  {
  }

  /** An EMPLOYEE can only submit a draft, and only to CREATED. */
  lemma EmployeeOnlySubmitsDrafts(u: User, t: Ticket)
    requires u.role == EMPLOYEE
    ensures ViewTransitions(Some(u), t) == (if t.status == DRAFT then [CREATED] else [])
  {
  }

  /** RESOLVED is offered only from IN_PROGRESS, and never to an EMPLOYEE. */
  lemma ResolvedOnlyFromInProgress(user: Option<User>, t: Ticket)
    requires RESOLVED in ViewTransitions(user, t)
    ensures t.status == IN_PROGRESS && user.Some? && user.value.role != EMPLOYEE
  {
  }

  /** `canEdit` (identical in the detail view and the modal view). */
  predicate CanEdit(user: Option<User>, t: Ticket)
  {
    user.Some? &&
    match user.value.role
    case EO => true
    case DO => t.department == user.value.department
    case EMPLOYEE => t.createdBy == user.value.id
  }

  /** `canDelete` (identical in the detail view and the modal view). */
  predicate CanDelete(user: Option<User>, t: Ticket)
  {
    user.Some? &&
    match user.value.role
    case EO => true
    case DO => t.department == user.value.department && IsEditableStatus(t.status)
    case EMPLOYEE => t.createdBy == user.value.id && IsEditableStatus(t.status)
  }

  /** `canChangeStatus` (identical in the detail view and the modal view). */
  predicate CanChangeStatus(user: Option<User>, t: Ticket)
  {
    user.Some? &&
    match user.value.role
    case EO => true
    case DO => true
    case EMPLOYEE => t.createdBy == user.value.id && IsEditableStatus(t.status)
  }

  /** Without a logged-in user nothing is permitted and no transition is offered. */
  lemma NoUserNoRights(t: Ticket)
    ensures !CanEdit(None, t) && !CanDelete(None, t) && !CanChangeStatus(None, t)
    ensures ViewTransitions(None, t) == []
  {
  }

  /** Delete rights are edit rights restricted, for everyone but an EO, to DRAFT and CREATED tickets. */
  lemma CanDeleteCharacterised(user: Option<User>, t: Ticket)
    ensures CanDelete(user, t) ==> CanEdit(user, t)
    ensures CanDelete(user, t) <==>
      CanEdit(user, t) && (user.value.role == EO || IsEditableStatus(t.status))
  {
  }

  /** An EMPLOYEE may change status only as the creator of a DRAFT or CREATED ticket; EO and DO always may. */
  lemma CanChangeStatusByRole(u: User, t: Ticket)
    ensures u.role != EMPLOYEE ==> CanChangeStatus(Some(u), t)
    ensures u.role == EMPLOYEE ==>
      (CanChangeStatus(Some(u), t) <==> t.createdBy == u.id && IsEditableStatus(t.status))
  {
  }

  /** The detail view shows its "Change status" button when `canChangeStatus()` holds and some transition exists. */
  predicate ShowsStatusButton(user: Option<User>, t: Ticket)
  {
    CanChangeStatus(user, t) && |ViewTransitions(user, t)| > 0
  }

  /**
    For an EMPLOYEE the two gates combine to "creator of a DRAFT": the
    permission admits CREATED tickets too, but the role filter offers no
    transition out of CREATED, so the button never appears there.
   */
  lemma EmployeeStatusButtonOnlyOnOwnDraft(u: User, t: Ticket)
    requires u.role == EMPLOYEE
    ensures ShowsStatusButton(Some(u), t) <==> t.createdBy == u.id && t.status == DRAFT
  {
    EmployeeOnlySubmitsDrafts(u, t);
  }

  /** `isOverdue`, with the wall clock passed in as `now` (the same expression in the view, the modal and the card). */
  predicate IsOverdue(t: Ticket, now: int)
  {
    t.dueDate.Some? && now > t.dueDate.value && t.status != COMPLETED && t.status != CANCELLED
  }

  /** A ticket without due date, or one that is COMPLETED or CANCELLED, is never overdue. */
  lemma NotOverdueCases(t: Ticket, now: int)
    ensures t.dueDate.None? || t.status == COMPLETED || t.status == CANCELLED ==> !IsOverdue(t, now)
    ensures IsOverdue(t, now) ==> forall later :: later >= now ==> IsOverdue(t, later)
  {
  }

  /** `completedSteps`: the number of steps whose status is COMPLETED. */
  function CompletedSteps(t: Ticket): (n: nat)
    ensures n <= |t.steps|
    ensures n == |t.steps| <==> forall i :: 0 <= i < |t.steps| ==> t.steps[i].status == STEP_COMPLETED
  {
    CompletedStepsLemma(t.steps);
    CountWhere(t.steps, (s: TicketStep) => s.status == STEP_COMPLETED)
  }

  lemma {:induction false} CompletedStepsLemma(steps: seq<TicketStep>)
    ensures var n := CountWhere(steps, (s: TicketStep) => s.status == STEP_COMPLETED);
      n == |steps| <==> forall i :: 0 <= i < |steps| ==> steps[i].status == STEP_COMPLETED
  {
    if steps != [] {
      CompletedStepsLemma(steps[1..]);
      var p := (s: TicketStep) => s.status == STEP_COMPLETED;
      assert forall i :: 1 <= i < |steps| ==> steps[i] == steps[1..][i - 1];
      if !p(steps[0]) {
        assert |Filter(steps, p)| == |Filter(steps[1..], p)| <= |steps| - 1;
      }
    }
  }
}
