/**
  The entities of the ticket tracker (users, tickets, workflow steps,
  document requirements, audit entries) as values. Dates are integer
  milliseconds; optional fields are `Option`s.
 */
module TicketTypes {
  import opened Common

  /** `User.role` */
  datatype Role = EMPLOYEE | DO | EO

  /** The three role names as the application spells them. */
  function RoleName(r: Role): string
  {
    match r
    case EMPLOYEE => "EMPLOYEE"
    case DO => "DO"
    case EO => "EO"
  }

  datatype User = User(
    id: string,
    username: string,
    name: string,
    email: string,
    role: Role,
    department: string,
    lastLogin: Option<int>)

  datatype TicketStatus =
    DRAFT | CREATED | APPROVED | ACTIVE | IN_PROGRESS | RESOLVED | COMPLETED | CLOSED | CANCELLED

  /** The status as the string the application stores and compares. */
  function StatusName(s: TicketStatus): string
  {
    match s
    case DRAFT => "DRAFT"
    case CREATED => "CREATED"
    case APPROVED => "APPROVED"
    case ACTIVE => "ACTIVE"
    case IN_PROGRESS => "IN_PROGRESS"
    case RESOLVED => "RESOLVED"
    case COMPLETED => "COMPLETED"
    case CLOSED => "CLOSED"
    case CANCELLED => "CANCELLED"
  }

  /** The nine statuses in declaration order (also the order of the dashboard cards). */
  const AllStatuses: seq<TicketStatus> :=
    [DRAFT, CREATED, APPROVED, ACTIVE, IN_PROGRESS, RESOLVED, COMPLETED, CLOSED, CANCELLED]

  /** `TicketStatus` has exactly nine values, each listed once, and the names are distinct. */
  lemma AllStatusesExact()
    ensures |AllStatuses| == 9 && NoDuplicates(AllStatuses)
    ensures forall s: TicketStatus :: s in AllStatuses
    ensures forall s, t :: StatusName(s) == StatusName(t) ==> s == t
  {
    forall s: TicketStatus ensures s in AllStatuses {
      match s
      case DRAFT => assert AllStatuses[0] == s;
      case CREATED => assert AllStatuses[1] == s;
      case APPROVED => assert AllStatuses[2] == s;
      case ACTIVE => assert AllStatuses[3] == s;
      case IN_PROGRESS => assert AllStatuses[4] == s;
      case RESOLVED => assert AllStatuses[5] == s;
      case COMPLETED => assert AllStatuses[6] == s;
      case CLOSED => assert AllStatuses[7] == s;
      case CANCELLED => assert AllStatuses[8] == s;
    }
  }

  /** Two statuses with the same name are the same status. */
  lemma StatusNameInjective(a: TicketStatus, b: TicketStatus)
    ensures StatusName(a) == StatusName(b) <==> a == b
  {
    AllStatusesExact();
  }

  datatype StepStatus = PENDING | STEP_IN_PROGRESS | STEP_COMPLETED | STEP_CLOSED

  /** The step statuses the step forms offer: CLOSED exists but is never offered. */
  const OfferedStepStatuses: seq<StepStatus> := [PENDING, STEP_IN_PROGRESS, STEP_COMPLETED]

  /** Of the four step statuses the forms offer every one but CLOSED. */
  lemma OfferedStepStatusesOmitClosed()
    ensures forall s :: s in OfferedStepStatuses <==> s != STEP_CLOSED
    ensures NoDuplicates(OfferedStepStatuses)
  {
    forall s ensures s in OfferedStepStatuses <==> s != STEP_CLOSED {
      match s
      case PENDING => assert OfferedStepStatuses[0] == s;
      case STEP_IN_PROGRESS => assert OfferedStepStatuses[1] == s;
      case STEP_COMPLETED => assert OfferedStepStatuses[2] == s;
      case STEP_CLOSED =>
    }
  }

  datatype Priority = LOW | MEDIUM | HIGH | CRITICAL

  function PriorityName(p: Priority): string
  {
    match p
    case LOW => "LOW"
    case MEDIUM => "MEDIUM"
    case HIGH => "HIGH"
    case CRITICAL => "CRITICAL"
  }

  datatype RequirementType = Mandatory | Optional

  /** The file held by a document requirement slot. */
  datatype UploadedFile = UploadedFile(
    id: string,
    name: string,
    url: string,
    size: nat,
    fileType: string,
    uploadedAt: int)

  /** A named slot, mandatory or optional, holding at most one uploaded file. */
  datatype DocumentRequirement = DocumentRequirement(
    id: string,
    name: string,
    description: string,
    reqType: RequirementType,
    userUploadedFile: Option<UploadedFile>)

  /**
    A workflow step. `documentRequirements` is the empty sequence where the
    source leaves the optional array undefined: every use reads it through
    `?.` or `|| []`.
   */
  datatype TicketStep = TicketStep(
    id: string,
    ticketId: string,
    stepNumber: string,
    title: string,
    description: string,
    status: StepStatus,
    assignedTo: Option<string>,
    createdBy: string,
    createdAt: int,
    completedAt: Option<int>,
    documentRequirements: seq<DocumentRequirement>)

  datatype AuditEntry = AuditEntry(
    id: string,
    ticketId: string,
    userId: string,
    action: string,
    oldValue: Option<string>,
    newValue: Option<string>,
    remarks: Option<string>,
    timestamp: int)

  datatype Ticket = Ticket(
    id: string,
    ticketNumber: string,
    moduleId: string,
    title: string,
    description: string,
    status: TicketStatus,
    priority: Priority,
    category: string,
    assignedTo: Option<string>,
    createdBy: string,
    createdAt: int,
    updatedAt: int,
    dueDate: Option<int>,
    department: string,
    steps: seq<TicketStep>,
    auditTrail: seq<AuditEntry>)

  /** What the status dialog sends: the ticket, the new status and the remarks, nothing else. */
  datatype StatusTransitionRequest = StatusTransitionRequest(
    ticketId: string,
    newStatus: TicketStatus,
    remarks: string)

  /**
    A `Partial<TicketStep>` as the step handlers send it to `updateStep`:
    the fields a handler leaves out are `None`. `userRole` and `attachments`
    are extra fields the completion dialog adds.
   */
  datatype StepUpdate = StepUpdate(
    status: Option<StepStatus>,
    completedAt: Option<int>,
    remarks: Option<string>,
    userRole: Option<Role>,
    attachments: Option<seq<FileBlob>>)

  /** A file chosen in a file input (the browser's `File`), reduced to its metadata. */
  datatype FileBlob = FileBlob(name: string, size: nat, fileType: string)

  /** `['DRAFT', 'CREATED'].includes(status)`: the statuses in which a ticket may still be reworked. */
  predicate IsEditableStatus(s: TicketStatus)
  {
    s == DRAFT || s == CREATED
  }
}
