/**
  The step-completion dialog: its two submit gates (remarks of at least ten
  characters after trimming, and at least one file for a DO), the update
  record it hands to `updateStep`, its submit button, and the form reset
  after a successful completion.
 */
module StepCompletion {
  import opened Common
  import opened TicketTypes
  import TicketContext

  /** `isFileUploadRequired`: only a DO must attach a file. */
  predicate FileUploadRequired(user: Option<User>)
  {
    user.Some? && user.value.role == DO
  }

  /** No file list, or an empty one. */
  predicate NoFiles(files: Option<seq<FileBlob>>)
  {
    files.None? || files.value == []
  }

  datatype CompletionError =
    | RemarksTooShort     // trimmed remarks shorter than 10
    | AttachmentMissing   // a DO with no file selected

  /** The role of the signed-in user, if any (`user?.role`). */
  function RoleOf(user: Option<User>): Option<Role>
  {
    if user.Some? then Some(user.value.role) else None
  }

  /**
    `handleSubmit` up to the call of `onComplete`: the update it sends, or
    the alert that stops it. `now` stands for `new Date()`.
   */
  function SubmitCompletion(user: Option<User>, remarks: string, files: Option<seq<FileBlob>>, now: int)
    : (r: Result<StepUpdate, CompletionError>)
    ensures r == Err(RemarksTooShort) <==> |Trim(remarks)| < 10
    ensures r == Err(AttachmentMissing) <==> |Trim(remarks)| >= 10 && FileUploadRequired(user) && NoFiles(files)
    ensures r.Ok? ==> r.value.status == Some(STEP_COMPLETED) && r.value.completedAt == Some(now)
    ensures r.Ok? ==> r.value.remarks == Some(Trim(remarks)) && r.value.userRole == RoleOf(user)
    ensures r.Ok? ==> r.value.attachments == Some(files.GetOr([]))
  {
    if |Trim(remarks)| < 10 then Err(RemarksTooShort)
    else if FileUploadRequired(user) && NoFiles(files) then Err(AttachmentMissing)
    else
      Ok(StepUpdate(Some(STEP_COMPLETED), Some(now), Some(Trim(remarks)), RoleOf(user), Some(files.GetOr([]))))
  }

  /** The submit button's `disabled` expression. */
  predicate SubmitDisabled(loading: bool, user: Option<User>, remarks: string, files: Option<seq<FileBlob>>)
  {
    loading || |Trim(remarks)| < 10 || (FileUploadRequired(user) && NoFiles(files))
  }

  /** The button is enabled, when nothing is loading, exactly for a submission that passes both gates. */
  lemma EnabledIffAccepted(user: Option<User>, remarks: string, files: Option<seq<FileBlob>>, now: int)
    ensures !SubmitDisabled(false, user, remarks, files) <==> SubmitCompletion(user, remarks, files, now).Ok?
    ensures SubmitDisabled(true, user, remarks, files)
  {
  }

  /**
    The dialog's second gate is the store's: an update the dialog accepts
    passes `updateStep`'s gate for every role once a user and a module are
    present, because a DO's update always carries a non-empty file list.
   */
  lemma AcceptedCompletionPassesStoreGate(u: User, remarks: string, files: Option<seq<FileBlob>>, now: int)
    requires SubmitCompletion(Some(u), remarks, files, now).Ok?
    ensures TicketContext.UpdateStepGate(Some(u), true, SubmitCompletion(Some(u), remarks, files, now).value).None?
  {
    var upd := SubmitCompletion(Some(u), remarks, files, now).value;
    TicketContext.UpdateStepGateCharacterised(u, upd);
  }

  /** The dialog's form: the remarks typed and the files chosen. */
  datatype CompletionForm = CompletionForm(remarks: string, files: Option<seq<FileBlob>>)

  /**
    The form after a submission: cleared when the update was accepted and
    `onComplete` resolved (`completed`), left as it was otherwise.
   */
  function FormAfterSubmit(form: CompletionForm, user: Option<User>, now: int, completed: bool): CompletionForm
  {
    if SubmitCompletion(user, form.remarks, form.files, now).Ok? && completed then CompletionForm("", None) else form
  }

  /**
    After a successful completion the form is empty and the button is
    disabled again (the cleared remarks fail the length gate); a rejected
    or failed submission keeps what the user typed.
   */
  lemma ResetFormIsDisabled(form: CompletionForm, user: Option<User>, now: int, completed: bool)
    ensures var next := FormAfterSubmit(form, user, now, completed);
      if SubmitCompletion(user, form.remarks, form.files, now).Ok? && completed then
        next.remarks == "" && next.files.None? && SubmitDisabled(false, user, next.remarks, next.files)
      else next == form
  {
  }
}
