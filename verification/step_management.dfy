/**
  The step editor: who may manage steps, the number proposed for a new
  step (JavaScript's `parseInt` applied to every existing step number),
  the document-requirement list edits, the status dialog's submit and the
  assignee picker.
 */
module StepManagement {
  import opened Common
  import opened TicketTypes
  import TicketContext
  import StatusTransition

  // ---------------------------------------------------------------------
  // Role flags
  // ---------------------------------------------------------------------

  /** `canCreateModifySteps`: only an EO. */
  predicate CanCreateModifySteps(user: Option<User>)
  {
    user.Some? && user.value.role == EO
  }

  /** `canUploadDocuments`: a DO or an EO. */
  predicate CanUploadDocuments(user: Option<User>)
  {
    user.Some? && (user.value.role == DO || user.value.role == EO)
  }

  /** `canViewChangeStepStatus`: a DO or an EO. */
  predicate CanViewChangeStepStatus(user: Option<User>)
  {
    user.Some? && (user.value.role == DO || user.value.role == EO)
  }

  /** Creating steps is the strongest right; an EMPLOYEE (or no user) has none of the three. */
  lemma RoleFlagsOrdered(user: Option<User>)
    ensures CanCreateModifySteps(user) ==> CanUploadDocuments(user)
    ensures CanUploadDocuments(user) <==> CanViewChangeStepStatus(user)
    ensures user.None? || user.value.role == EMPLOYEE ==>
      !CanCreateModifySteps(user) && !CanUploadDocuments(user) && !CanViewChangeStepStatus(user)
    ensures CanUploadDocuments(user) && !CanCreateModifySteps(user) ==> user.value.role == DO
  {
  }

  // ---------------------------------------------------------------------
  // parseInt and the next step number
  // ---------------------------------------------------------------------

  /** The value of a character as a digit in bases up to 36 (`0-9`, then `a-z` or `A-Z`). */
  function DigitValue(c: char): (d: Option<nat>)
    ensures d.Some? ==> d.value < 36
  {
    if '0' <= c <= '9' then Some(c as int - '0' as int)
    else if 'a' <= c <= 'z' then Some(c as int - 'a' as int + 10)
    else if 'A' <= c <= 'Z' then Some(c as int - 'A' as int + 10)
    else None
  }

  predicate IsDigitIn(c: char, radix: nat)
  {
    DigitValue(c).Some? && DigitValue(c).value < radix
  }

  /** The longest prefix of `s` made of digits of the radix. */
  function DigitPrefix(s: string, radix: nat): (d: string)
    ensures |d| <= |s| && d == s[..|d|]
    ensures forall i :: 0 <= i < |d| ==> IsDigitIn(d[i], radix)
    ensures |d| < |s| ==> !IsDigitIn(s[|d|], radix)
  {
    if s != [] && IsDigitIn(s[0], radix) then [s[0]] + DigitPrefix(s[1..], radix) else []
  }

  /**
    The number a digit string denotes in the radix, most significant digit
    first. It is applied only to digit prefixes, so the fallback 0 for a
    non-digit is never used.
   */
  function DigitsValue(d: string, radix: nat): nat
  {
    if d == [] then 0
    else DigitsValue(d[..|d| - 1], radix) * radix + DigitValue(d[|d| - 1]).GetOr(0)
  }

  /**
    The unsigned part of `parseInt`: a `0x`/`0X` prefix selects base 16
    and otherwise base 10; the longest run of digits is read and the rest
    ignored. No digit at all gives `NaN`, here `None`.
   */
  function ParseMagnitude(body: string): Option<nat>
  {
    var hex := |body| >= 2 && body[0] == '0' && (body[1] == 'x' || body[1] == 'X');
    var radix := if hex then 16 else 10;
    var digits := DigitPrefix(if hex then body[2..] else body, radix);
    if digits == [] then None else Some(DigitsValue(digits, radix))
  }

  /**
    `parseInt(s)` with no radix: leading white space is skipped, then an
    optional sign, then the magnitude.
   */
  function ParseInt(s: string): Option<int>
  {
    var t := TrimStart(s);
    var negative := t != [] && t[0] == '-';
    var body := if t != [] && (t[0] == '-' || t[0] == '+') then t[1..] else t;
    match ParseMagnitude(body)
    case None => None
    case Some(v) =>
      var value: int := if negative then -(v as int) else v;
      Some(value)
  }

  /** `parseInt(step.stepNumber) || 0`: NaN (and 0) become 0. */
  function StepNumberValue(step: TicketStep): int
  {
    match ParseInt(step.stepNumber)
    case None => 0
    case Some(v) => v
  }

  /** `Math.max(0, ...values)` */
  function MaxWithZero(values: seq<int>): (m: nat)
    ensures forall i :: 0 <= i < |values| ==> values[i] <= m
    ensures m == 0 || exists i :: 0 <= i < |values| && values[i] == m
  {
    if values == [] then 0
    else
      var rest := MaxWithZero(values[1..]);
      assert forall i :: 1 <= i < |values| ==> values[i] == values[1..][i - 1];
      if values[0] > rest then values[0] else rest
  }

  /** The value `getNextStepNumber` proposes: one more than the largest parsed step number, and at least 1. */
  function NextStepValue(steps: seq<TicketStep>): (n: nat)
    ensures n >= 1
    ensures forall i :: 0 <= i < |steps| ==> StepNumberValue(steps[i]) < n
    ensures n == 1 || exists i :: 0 <= i < |steps| && StepNumberValue(steps[i]) == n - 1
  {
    var values := seq(|steps|, i requires 0 <= i < |steps| => StepNumberValue(steps[i]));
    assert forall i :: 0 <= i < |steps| ==> values[i] == StepNumberValue(steps[i]);
    MaxWithZero(values) + 1
  }

  function DecimalDigit(d: nat): char
    requires d < 10
  {
    ('0' as int + d) as char
  }

  /** `n.toString()` for a natural number. */
  function NatToDecimal(n: nat): (s: string)
    ensures |s| >= 1
    ensures forall i :: 0 <= i < |s| ==> '0' <= s[i] <= '9'
    ensures |s| > 1 ==> s[0] != '0'
  {
    if n < 10 then [DecimalDigit(n)] else NatToDecimal(n / 10) + [DecimalDigit(n % 10)]
  }

  /** `getNextStepNumber`: the proposed number as a string. */
  function NextStepNumber(steps: seq<TicketStep>): string
  {
    NatToDecimal(NextStepValue(steps))
  }

  lemma {:induction false} DecimalDigitsValue(n: nat)
    ensures forall i :: 0 <= i < |NatToDecimal(n)| ==> IsDigitIn(NatToDecimal(n)[i], 10)
    ensures DigitsValue(NatToDecimal(n), 10) == n
  {
    var s := NatToDecimal(n);
    if n >= 10 {
      DecimalDigitsValue(n / 10);
      assert s[..|s| - 1] == NatToDecimal(n / 10);
    }
  }

  lemma {:induction false} DigitPrefixOfDigits(s: string, radix: nat)
    requires forall i :: 0 <= i < |s| ==> IsDigitIn(s[i], radix)
    ensures DigitPrefix(s, radix) == s
  {
    if s != [] {
      DigitPrefixOfDigits(s[1..], radix);
    }
  }

  /** A decimal numeral without a leading zero is read in base 10, whole. */
  lemma MagnitudeOfDecimal(n: nat)
    ensures ParseMagnitude(NatToDecimal(n)) == Some(n)
  {
    var s := NatToDecimal(n);
    DecimalDigitsValue(n);
    assert !(|s| >= 2 && s[0] == '0');
    DigitPrefixOfDigits(s, 10);
  }

  /** `parseInt` reads back what `toString` writes for every natural number. */
  lemma ParseIntOfDecimal(n: nat)
    ensures ParseInt(NatToDecimal(n)) == Some(n)
  {
    var s := NatToDecimal(n);
    assert '0' <= s[0] <= '9';
    assert !IsJsWhitespace(s[0]);
    assert TrimStart(s) == s;
    MagnitudeOfDecimal(n);
  }

  /**
    The proposed number reads back as a value above every existing step's
    value, so it never repeats the value of an existing step.
   */
  lemma NextStepNumberIsFresh(steps: seq<TicketStep>, newStep: TicketStep)
    requires newStep.stepNumber == NextStepNumber(steps)
    ensures StepNumberValue(newStep) == NextStepValue(steps)
    ensures forall i :: 0 <= i < |steps| ==> StepNumberValue(steps[i]) < StepNumberValue(newStep)
  {
    ParseIntOfDecimal(NextStepValue(steps));
  }

  // ---------------------------------------------------------------------
  // Document requirements of the step being edited
  // ---------------------------------------------------------------------

  /** `addDocumentRequirement`: a fresh mandatory requirement with empty name and description. */
  function AddRequirement(reqs: seq<DocumentRequirement>, newId: string): (r: seq<DocumentRequirement>)
    ensures |r| == |reqs| + 1 && r[..|reqs|] == reqs
    ensures r[|reqs|].id == newId && r[|reqs|].reqType == Mandatory
    ensures r[|reqs|].name == "" && r[|reqs|].description == "" && r[|reqs|].userUploadedFile.None?
  {
    reqs + [DocumentRequirement(newId, "", "", Mandatory, None)]
  }

  /** The fields the editor patches: name, type or description. */
  datatype RequirementPatch = RequirementPatch(
    name: Option<string>,
    description: Option<string>,
    reqType: Option<RequirementType>)

  /** `{ ...req, ...updates }` */
  function ApplyPatch(r: DocumentRequirement, p: RequirementPatch): DocumentRequirement
  {
    r.(name := p.name.GetOr(r.name),
       description := p.description.GetOr(r.description),
       reqType := p.reqType.GetOr(r.reqType))
  }

  /** `updateDocumentRequirement`: patch every entry with the id. */
  function UpdateRequirement(reqs: seq<DocumentRequirement>, id: string, p: RequirementPatch)
    : (r: seq<DocumentRequirement>)
    ensures |r| == |reqs|
    ensures forall i :: 0 <= i < |reqs| && reqs[i].id != id ==> r[i] == reqs[i]
    ensures forall i :: 0 <= i < |reqs| ==> r[i].id == reqs[i].id && r[i].userUploadedFile == reqs[i].userUploadedFile
    ensures forall i :: 0 <= i < |reqs| && reqs[i].id == id ==>
      r[i].name == p.name.GetOr(reqs[i].name)
      && r[i].description == p.description.GetOr(reqs[i].description)
      && r[i].reqType == p.reqType.GetOr(reqs[i].reqType)
  {
    seq(|reqs|, i requires 0 <= i < |reqs| => if reqs[i].id == id then ApplyPatch(reqs[i], p) else reqs[i])
  }

  /**
    Renaming by id names every entry with the id and only those: an entry
    keeps its old name unless it carries the id.
   */
  lemma RenameNamesEntries(reqs: seq<DocumentRequirement>, id: string, n: string)
    ensures var r := UpdateRequirement(reqs, id, RequirementPatch(Some(n), None, None));
      forall i :: 0 <= i < |r| ==>
        (r[i].id == id ==> r[i].name == n && r[i].reqType == reqs[i].reqType && r[i].description == reqs[i].description)
        && (r[i].id != id ==> r[i] == reqs[i])
  {
  }

  /** `removeDocumentRequirement`: drop every entry with the id. */
  function RemoveRequirement(reqs: seq<DocumentRequirement>, id: string): (r: seq<DocumentRequirement>)
    ensures forall x :: x in r <==> x in reqs && x.id != id
  {
    Filter(reqs, (x: DocumentRequirement) => x.id != id)
  }

  /** The ids of a requirement list. */
  function Ids(reqs: seq<DocumentRequirement>): set<string>
  {
    set r | r in reqs :: r.id
  }

  /** Removal keeps the other entries in their order. */
  lemma RemoveKeepsOrder(reqs: seq<DocumentRequirement>, id: string)
    ensures IsSubseq(RemoveRequirement(reqs, id), reqs)
    ensures id !in Ids(RemoveRequirement(reqs, id))
  {
    FilterIsSubseq(reqs, (x: DocumentRequirement) => x.id != id);
  }

  /** Adding a requirement with a fresh id and removing it again restores the list. */
  lemma {:induction false} RemoveUndoesAdd(reqs: seq<DocumentRequirement>, newId: string)
    requires newId !in Ids(reqs)
    ensures RemoveRequirement(AddRequirement(reqs, newId), newId) == reqs
  {
    var p := (x: DocumentRequirement) => x.id != newId;
    var added := DocumentRequirement(newId, "", "", Mandatory, None);
    FilterAppend(reqs, [added], p);
    assert Filter([added], p) == [];
    assert forall x :: x in reqs ==> p(x);
    FilterKeepsAll(reqs, p);
  }

  /** Patching by id keeps the ids, so removing afterwards removes the same entries. */
  lemma UpdateThenRemove(reqs: seq<DocumentRequirement>, id: string, p: RequirementPatch)
    ensures RemoveRequirement(UpdateRequirement(reqs, id, p), id) == RemoveRequirement(reqs, id)
  {
    FilterAgree(UpdateRequirement(reqs, id, p), reqs, (x: DocumentRequirement) => x.id != id);
  }

  /** Applying the same patch twice is applying it once. */
  lemma UpdateIdempotent(reqs: seq<DocumentRequirement>, id: string, p: RequirementPatch)
    ensures UpdateRequirement(UpdateRequirement(reqs, id, p), id, p) == UpdateRequirement(reqs, id, p)
  {
  }

  /** The file record an upload builds: its url is empty until the file store assigns one. */
  function UploadedRecord(file: FileBlob, fileId: string, now: int): UploadedFile
  {
    UploadedFile(fileId, file.name, "", file.size, file.fileType, now)
  }

  /**
    `handleDocumentRequirementUpload`: with no file chosen nothing changes;
    otherwise every entry with the id gets the new file record.
   */
  function UploadRequirementFile(reqs: seq<DocumentRequirement>, reqId: string, file: Option<FileBlob>,
                                 fileId: string, now: int): (r: seq<DocumentRequirement>)
    ensures file.None? ==> r == reqs
    ensures |r| == |reqs|
    ensures forall i :: 0 <= i < |reqs| && reqs[i].id != reqId ==> r[i] == reqs[i]
    ensures file.Some? ==> forall i :: 0 <= i < |reqs| && reqs[i].id == reqId ==>
      r[i] == reqs[i].(userUploadedFile := Some(UploadedRecord(file.value, fileId, now)))
  {
    if file.None? then reqs
    else
      seq(|reqs|, i requires 0 <= i < |reqs| =>
        if reqs[i].id == reqId then reqs[i].(userUploadedFile := Some(UploadedRecord(file.value, fileId, now)))
        else reqs[i])
  }

  /**
    Uploading a file to a requirement clears it from the resolution check:
    no entry with that id is left mandatory and missing, and every other
    entry is as unmet as before.
   */
  lemma UploadSatisfiesRequirement(reqs: seq<DocumentRequirement>, reqId: string, file: FileBlob,
                                   fileId: string, now: int)
    ensures var r := UploadRequirementFile(reqs, reqId, Some(file), fileId, now);
      forall i :: 0 <= i < |r| ==>
        (r[i].id == reqId ==> !StatusTransition.Unmet(r[i]))
        && (r[i].id != reqId ==> StatusTransition.Unmet(r[i]) == StatusTransition.Unmet(reqs[i]))
  {
  }

  // ---------------------------------------------------------------------
  // The step status dialog
  // ---------------------------------------------------------------------

  datatype StepStatusError =
    | NoStepOrUser        // nothing is being changed, or no one is signed in: the handler returns
    | RemarksTooShort     // trimmed remarks shorter than 5

  /**
    `handleStepStatusSubmit` up to the call of `updateStep`: the update it
    sends. The remarks are checked but not sent, and no attachments are
    sent.
   */
  function StepStatusSubmit(changing: Option<TicketStep>, user: Option<User>, newStatus: StepStatus,
                            remarks: string, now: int): (r: Result<StepUpdate, StepStatusError>)
    ensures r == Err(NoStepOrUser) <==> changing.None? || user.None?
    ensures r == Err(RemarksTooShort) <==> changing.Some? && user.Some? && |Trim(remarks)| < 5
    ensures r.Ok? ==> r.value.status == Some(newStatus)
    ensures r.Ok? ==> (r.value.completedAt.Some? <==> newStatus == STEP_COMPLETED)
    ensures r.Ok? ==> r.value.completedAt.Some? ==> r.value.completedAt.value == now
    ensures r.Ok? ==> r.value.attachments.None? && r.value.remarks.None?
  {
    if changing.None? || user.None? then Err(NoStepOrUser)
    else if |Trim(remarks)| < 5 then Err(RemarksTooShort)
    else Ok(StepUpdate(Some(newStatus), if newStatus == STEP_COMPLETED then Some(now) else None, None, None, None))
  }

  /**
    A DO who completes a step through the status dialog is always refused
    by the store's gate: the dialog never sends attachments, and the gate
    demands them of a DO completing a step.
   */
  lemma DoCannotCompleteThroughStatusDialog(step: TicketStep, u: User, remarks: string, now: int)
    requires u.role == DO
    requires StepStatusSubmit(Some(step), Some(u), STEP_COMPLETED, remarks, now).Ok?
    ensures TicketContext.UpdateStepGate(Some(u), true,
      StepStatusSubmit(Some(step), Some(u), STEP_COMPLETED, remarks, now).value) == Some(TicketContext.AttachmentsRequired)
  {
  }

  /** Any other status change through the dialog passes the store's gate. */
  lemma OtherStatusChangesPassGate(step: TicketStep, u: User, s: StepStatus, remarks: string, now: int)
    requires s != STEP_COMPLETED || u.role != DO
    requires StepStatusSubmit(Some(step), Some(u), s, remarks, now).Ok?
    ensures TicketContext.UpdateStepGate(Some(u), true, StepStatusSubmit(Some(step), Some(u), s, remarks, now).value).None?
  {
    TicketContext.UpdateStepGateCharacterised(u, StepStatusSubmit(Some(step), Some(u), s, remarks, now).value);
  }

  // ---------------------------------------------------------------------
  // Assignee picker
  // ---------------------------------------------------------------------

  /** Whether the picker lists a user: everyone for an EO, the same department for a DO, no one otherwise. */
  predicate Assignable(user: Option<User>, u: User)
  {
    user.Some? &&
    match user.value.role
    case EO => true
    case DO => u.department == user.value.department
    case EMPLOYEE => false
  }

  /** `availableUsers` */
  function AvailableAssignees(users: seq<User>, user: Option<User>): (r: seq<User>)
    ensures forall u :: u in r <==> u in users && Assignable(user, u)
  {
    Filter(users, (u: User) => Assignable(user, u))
  }

  /** An EO can pick anyone, an EMPLOYEE or no user no one, in the store's order. */
  lemma AssigneesByRole(users: seq<User>, user: Option<User>)
    ensures user.Some? && user.value.role == EO ==> AvailableAssignees(users, user) == users
    ensures user.None? || user.value.role == EMPLOYEE ==> AvailableAssignees(users, user) == []
    ensures IsSubseq(AvailableAssignees(users, user), users)
  {
    var p := (u: User) => Assignable(user, u);
    FilterIsSubseq(users, p);
    if user.Some? && user.value.role == EO {
      FilterKeepsAll(users, p);
    } else if user.None? || user.value.role == EMPLOYEE {
      FilterDropsAll(users, p);
    }
  }
}
