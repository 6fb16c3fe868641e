/**
  The status-change dialog: the mandatory-document check a DO must pass to
  resolve a ticket, the gates of its submit handler, the request it sends,
  and the labels and descriptions it shows for each target status.
 */
module StatusTransition {
  import opened Common
  import opened TicketTypes

  /** A requirement that blocks resolution: mandatory and without an uploaded file. */
  predicate Unmet(r: DocumentRequirement)
  {
    r.reqType == Mandatory && r.userUploadedFile.None?
  }

  /** The message reported for one unmet requirement of a step. */
  function MissingMessage(stepNumber: string, r: DocumentRequirement): string
  {
    "Step " + stepNumber + ": Missing mandatory document \"" + r.name + "\""
  }

  /** The messages for the unmet requirements of one step, in requirement order. */
  function RequirementErrors(stepNumber: string, reqs: seq<DocumentRequirement>): seq<string>
  {
    if reqs == [] then []
    else
      var last := reqs[|reqs| - 1];
      RequirementErrors(stepNumber, reqs[..|reqs| - 1])
        + (if Unmet(last) then [MissingMessage(stepNumber, last)] else [])
  }

  /** The messages for all steps, step by step. */
  function StepsErrors(steps: seq<TicketStep>): seq<string>
  {
    if steps == [] then []
    else
      var last := steps[|steps| - 1];
      StepsErrors(steps[..|steps| - 1]) + RequirementErrors(last.stepNumber, last.documentRequirements)
  }

  /** The check runs only when a DO has selected RESOLVED; otherwise it reports nothing. */
  function MandatoryErrors(selected: Option<TicketStatus>, user: Option<User>, t: Ticket): seq<string>
  {
    if selected == Some(RESOLVED) && user.Some? && user.value.role == DO then StepsErrors(t.steps) else []
  }

  /** `validateMandatoryDocuments`: one pass over the steps and, inside it, over each step's requirements. */
  method ValidateMandatoryDocuments(selected: Option<TicketStatus>, user: Option<User>, t: Ticket)
    returns (errors: seq<string>)
    ensures errors == MandatoryErrors(selected, user, t)
  {
    errors := [];
    if selected == Some(RESOLVED) && user.Some? && user.value.role == DO {
      var i := 0;
      while i < |t.steps|
        invariant 0 <= i <= |t.steps|
        invariant errors == StepsErrors(t.steps[..i])
      {
        var step := t.steps[i];
        var reqs := step.documentRequirements;
        var j := 0;
        ghost var before := errors;
        while j < |reqs|
          invariant 0 <= j <= |reqs|
          invariant errors == before + RequirementErrors(step.stepNumber, reqs[..j])
        {
          if reqs[j].reqType == Mandatory && reqs[j].userUploadedFile.None? {
            errors := errors + [MissingMessage(step.stepNumber, reqs[j])];
          }
          assert reqs[..j + 1][..j] == reqs[..j];
          j := j + 1;
        }
        assert reqs[..j] == reqs;
        assert t.steps[..i + 1][..i] == t.steps[..i];
        i := i + 1;
      }
      assert t.steps[..i] == t.steps;
    }
  }

  /** Every requirement of every step is satisfied: none is mandatory and missing. */
  predicate AllMandatoryUploaded(steps: seq<TicketStep>)
  {
    forall i, j :: 0 <= i < |steps| && 0 <= j < |steps[i].documentRequirements| ==>
      !Unmet(steps[i].documentRequirements[j])
  }

  lemma {:induction false} RequirementErrorsEmpty(n: string, reqs: seq<DocumentRequirement>)
    ensures RequirementErrors(n, reqs) == [] <==> forall j :: 0 <= j < |reqs| ==> !Unmet(reqs[j])
  {
    if reqs != [] {
      var init := reqs[..|reqs| - 1];
      RequirementErrorsEmpty(n, init);
      assert forall j :: 0 <= j < |init| ==> init[j] == reqs[j];
    }
  }

  /** The check reports nothing exactly when every mandatory requirement holds a file. */
  lemma {:induction false} StepsErrorsEmpty(steps: seq<TicketStep>)
    ensures StepsErrors(steps) == [] <==> AllMandatoryUploaded(steps)
  {
    if steps != [] {
      var init := steps[..|steps| - 1];
      var last := steps[|steps| - 1];
      StepsErrorsEmpty(init);
      RequirementErrorsEmpty(last.stepNumber, last.documentRequirements);
      assert forall i :: 0 <= i < |init| ==> init[i] == steps[i];
    }
  }

  /** There is one message per unmet mandatory requirement of a step; optional requirements never produce one. */
  lemma {:induction false} RequirementErrorsCount(n: string, reqs: seq<DocumentRequirement>)
    ensures |RequirementErrors(n, reqs)| == CountWhere(reqs, Unmet)
  {
    if reqs != [] {
      var init := reqs[..|reqs| - 1];
      RequirementErrorsCount(n, init);
      FilterAppend(init, [reqs[|reqs| - 1]], Unmet);
      assert init + [reqs[|reqs| - 1]] == reqs;
    }
  }

  /** The outcome of `handleSubmit`'s two gates. */
  datatype SubmitError =
    | MissingStatusOrRemarks   // no status selected, or trimmed remarks shorter than 10
    | MissingDocuments         // a DO resolving with a mandatory document missing

  /**
    `handleSubmit` up to the call of `changeTicketStatus`: the request it
    would send, or the alert that stops it. The selection is `None` while
    the dropdown shows its empty placeholder.
   */
  function SubmitStatusChange(t: Ticket, user: Option<User>, selected: Option<TicketStatus>, remarks: string)
    : (r: Result<StatusTransitionRequest, SubmitError>)
    ensures r.Ok? ==> selected.Some? && |Trim(remarks)| >= 10 && MandatoryErrors(selected, user, t) == []
    ensures r.Ok? ==> r.value.ticketId == t.id && Some(r.value.newStatus) == selected
    ensures r.Ok? ==> r.value.remarks == Trim(remarks)
    ensures r == Err(MissingStatusOrRemarks) <==> selected.None? || |Trim(remarks)| < 10
  {
    if selected.None? || |Trim(remarks)| < 10 then Err(MissingStatusOrRemarks)
    else if MandatoryErrors(selected, user, t) != [] then Err(MissingDocuments)
    else Ok(StatusTransitionRequest(t.id, selected.value, Trim(remarks)))
  }

  /**
    Only a DO resolving a ticket can be stopped by documents, and then
    exactly when a mandatory requirement of some step has no file.
   */
  lemma DocumentsBlockOnlyDoResolving(t: Ticket, user: Option<User>, selected: Option<TicketStatus>, remarks: string)
    requires selected.Some? && |Trim(remarks)| >= 10
    ensures SubmitStatusChange(t, user, selected, remarks) == Err(MissingDocuments) <==>
      selected == Some(RESOLVED) && user.Some? && user.value.role == DO && !AllMandatoryUploaded(t.steps)
  {
    StepsErrorsEmpty(t.steps);
  }

  /** A request that is sent carries remarks with at least ten characters and no surrounding white space. */
  lemma SentRemarksAreTrimmed(t: Ticket, user: Option<User>, selected: Option<TicketStatus>, remarks: string)
    requires SubmitStatusChange(t, user, selected, remarks).Ok?
    ensures var sent := SubmitStatusChange(t, user, selected, remarks).value.remarks;
      |sent| >= 10 && Trim(sent) == sent
  {
    TrimIdempotent(remarks);
  }

  /** The submit button's `disabled` expression, given the errors the dialog currently shows. */
  predicate SubmitDisabled(loading: bool, selected: Option<TicketStatus>, remarks: string, shown: seq<string>)
  {
    loading || selected.None? || |Trim(remarks)| < 10 || |shown| > 0
  }

  /**
    With the shown errors kept in step with the selection (the effect that
    re-runs the check whenever the status or the steps change), an enabled
    button is exactly a submission that passes both gates.
   */
  lemma EnabledIffAccepted(t: Ticket, user: Option<User>, selected: Option<TicketStatus>, remarks: string)
    ensures !SubmitDisabled(false, selected, remarks, MandatoryErrors(selected, user, t))
      <==> SubmitStatusChange(t, user, selected, remarks).Ok?
  {
  }

  /** `getStatusLabel`: a label for five statuses, the status name for the rest. */
  function StatusLabel(s: TicketStatus): (text: string)
    ensures text == StatusName(s) <==> s !in {CREATED, APPROVED, ACTIVE, COMPLETED, CANCELLED}
  {
    match s
    case CREATED => "Submit for Review"
    case APPROVED => "Approve Ticket"
    case ACTIVE => "Start Work"
    case COMPLETED => "Mark Complete"
    case CANCELLED => "Cancel Ticket"
    case _ => StatusName(s)
  }

  /** `getStatusDescription`: DRAFT and CLOSED have none (the empty string). */
  function StatusDescription(s: TicketStatus): (d: string)
    ensures d == "" <==> s == DRAFT || s == CLOSED
  {
    match s
    case CREATED => "Submit this ticket for review and assignment"
    case APPROVED => "Approve this ticket to proceed with work"
    case ACTIVE => "Begin active work on this ticket"
    case IN_PROGRESS => "Mark this ticket as currently being worked on"
    case RESOLVED => "Mark this ticket as resolved (requires all mandatory documents)"
    case COMPLETED => "Mark this ticket as completed"
    case CANCELLED => "Cancel this ticket and close it"
    case _ => ""
  }
}
