/**
  The ticket store's pure parts: the lookup by id, the role-scoped and
  filtered ticket list, and the gate `updateStep` applies before it calls
  the backend. The store's asynchronous create/update/delete calls and the
  reloads after them are not part of this model.
 */
module TicketContext {
  import opened Common
  import opened TicketTypes

  /** `tickets.find(ticket => ticket.id === id)` */
  function GetTicketById(tickets: seq<Ticket>, id: string): (r: Option<Ticket>)
    ensures r.Some? ==> r.value in tickets && r.value.id == id
    ensures r.None? <==> forall t :: t in tickets ==> t.id != id
  {
    if tickets == [] then None
    else if tickets[0].id == id then Some(tickets[0])
    else GetTicketById(tickets[1..], id)
  }

  /** The lookup returns the first ticket carrying the id, whatever follows it. */
  lemma {:induction false} GetTicketByIdFirst(pre: seq<Ticket>, t: Ticket, post: seq<Ticket>, id: string)
    requires t.id == id && forall x :: x in pre ==> x.id != id
    ensures GetTicketById(pre + [t] + post, id) == Some(t)
  {
    if pre != [] {
      assert (pre + [t] + post)[1..] == pre[1..] + [t] + post;
      GetTicketByIdFirst(pre[1..], t, post, id);
    }
  }

  /** `TicketFilters`; `createdBy` is declared but never applied. */
  datatype TicketFilters = TicketFilters(
    search: Option<string>,
    status: Option<TicketStatus>,
    assignedTo: Option<string>,
    department: Option<string>,
    priority: Option<string>,
    createdBy: Option<string>)

  /** A string filter is applied when it is present and not empty (`if (filters.x)`). */
  predicate Truthy(o: Option<string>)
  {
    o.Some? && o.value != ""
  }

  /** Who sees a ticket: its creator for an EMPLOYEE, its department for a DO, everyone for an EO or when no one is logged in. */
  predicate RoleSees(user: Option<User>, t: Ticket)
  {
    user.None? ||
    match user.value.role
    case EMPLOYEE => t.createdBy == user.value.id
    case DO => t.department == user.value.department
    case EO => true
  }

  /** The role switch: it filters for EMPLOYEE and DO and leaves the list alone otherwise. */
  function RoleScoped(tickets: seq<Ticket>, user: Option<User>): seq<Ticket>
  {
    if user.None? then tickets
    else
      match user.value.role
      case EMPLOYEE => Filter(tickets, (t: Ticket) => t.createdBy == user.value.id)
      case DO => Filter(tickets, (t: Ticket) => t.department == user.value.department)
      case EO => tickets
  }

  /** The search: the lower-cased term is a substring of the lower-cased id, title or description. */
  predicate SearchMatches(term: string, t: Ticket)
  {
    var q := ToLower(term);
    Contains(ToLower(t.id), q) || Contains(ToLower(t.title), q) || Contains(ToLower(t.description), q)
  }

  /** The test each filter applies to a ticket. */
  function SearchTest(f: TicketFilters): Ticket -> bool { (t: Ticket) => SearchMatches(f.search.GetOr(""), t) }
  function StatusTest(f: TicketFilters): Ticket -> bool { (t: Ticket) => Some(t.status) == f.status }
  function AssigneeTest(f: TicketFilters): Ticket -> bool { (t: Ticket) => t.assignedTo == f.assignedTo }
  function DepartmentTest(f: TicketFilters): Ticket -> bool { (t: Ticket) => Some(t.department) == f.department }
  function PriorityTest(f: TicketFilters): Ticket -> bool { (t: Ticket) => Some(PriorityName(t.priority)) == f.priority }

  /** `getFilteredTickets`: the role switch, then one filter per applied field. */
  function GetFilteredTickets(tickets: seq<Ticket>, user: Option<User>, f: TicketFilters): seq<Ticket>
  {
    var byRole := RoleScoped(tickets, user);
    var bySearch := Stage(byRole, Truthy(f.search), SearchTest(f));
    var byStatus := Stage(bySearch, f.status.Some?, StatusTest(f));
    var byAssignee := Stage(byStatus, Truthy(f.assignedTo), AssigneeTest(f));
    var byDepartment := Stage(byAssignee, Truthy(f.department), DepartmentTest(f));
    Stage(byDepartment, Truthy(f.priority), PriorityTest(f))
  }

  predicate PassesSearch(f: TicketFilters, t: Ticket)
  {
    Truthy(f.search) ==> SearchMatches(f.search.value, t)
  }

  predicate PassesStatus(f: TicketFilters, t: Ticket)
  {
    f.status.Some? ==> t.status == f.status.value
  }

  predicate PassesAssignee(f: TicketFilters, t: Ticket)
  {
    Truthy(f.assignedTo) ==> t.assignedTo == Some(f.assignedTo.value)
  }

  predicate PassesDepartment(f: TicketFilters, t: Ticket)
  {
    Truthy(f.department) ==> t.department == f.department.value
  }

  predicate PassesPriority(f: TicketFilters, t: Ticket)
  {
    Truthy(f.priority) ==> PriorityName(t.priority) == f.priority.value
  }

  /** The single condition the chain amounts to. */
  predicate Admits(user: Option<User>, f: TicketFilters, t: Ticket)
  {
    RoleSees(user, t) && PassesSearch(f, t) && PassesStatus(f, t)
    && PassesAssignee(f, t) && PassesDepartment(f, t) && PassesPriority(f, t)
  }

  function AdmitsTest(user: Option<User>, f: TicketFilters): Ticket -> bool
  {
    (t: Ticket) => Admits(user, f, t)
  }

  lemma RoleScopedIsFilter(tickets: seq<Ticket>, user: Option<User>)
    ensures RoleScoped(tickets, user) == Filter(tickets, (t: Ticket) => RoleSees(user, t))
  {
    var p := (t: Ticket) => RoleSees(user, t);
    if user.None? || user.value.role == EO {
      FilterKeepsAll(tickets, p);
    } else if user.value.role == EMPLOYEE {
      FilterExt(tickets, (t: Ticket) => t.createdBy == user.value.id, p);
    } else {
      FilterExt(tickets, (t: Ticket) => t.department == user.value.department, p);
    }
  }

  /** The chain of filters is one filter by `Admits`. */
  lemma GetFilteredIsFilter(tickets: seq<Ticket>, user: Option<User>, f: TicketFilters)
    ensures GetFilteredTickets(tickets, user, f) == Filter(tickets, AdmitsTest(user, f))
  {
    var p0 := (t: Ticket) => RoleSees(user, t);
    var p1 := (t: Ticket) => RoleSees(user, t) && PassesSearch(f, t);
    var p2 := (t: Ticket) => RoleSees(user, t) && PassesSearch(f, t) && PassesStatus(f, t);
    var p3 := (t: Ticket) => RoleSees(user, t) && PassesSearch(f, t) && PassesStatus(f, t)
      && PassesAssignee(f, t);
    var p4 := (t: Ticket) => RoleSees(user, t) && PassesSearch(f, t) && PassesStatus(f, t)
      && PassesAssignee(f, t) && PassesDepartment(f, t);
    RoleScopedIsFilter(tickets, user);
    assert forall t :: PassesSearch(f, t) == (!Truthy(f.search) || SearchTest(f)(t));
    StageAfterFilter(tickets, p0, Truthy(f.search), SearchTest(f), p1);
    StageAfterFilter(tickets, p1, f.status.Some?, StatusTest(f), p2);
    StageAfterFilter(tickets, p2, Truthy(f.assignedTo), AssigneeTest(f), p3);
    StageAfterFilter(tickets, p3, Truthy(f.department), DepartmentTest(f), p4);
    StageAfterFilter(tickets, p4, Truthy(f.priority), PriorityTest(f), AdmitsTest(user, f));
  }

  /** The result keeps the store's order and holds exactly the admitted tickets. */
  lemma FilteredTicketsCharacterised(tickets: seq<Ticket>, user: Option<User>, f: TicketFilters)
    ensures IsSubseq(GetFilteredTickets(tickets, user, f), tickets)
    ensures forall t :: t in GetFilteredTickets(tickets, user, f) <==> t in tickets && Admits(user, f, t)
  {
    GetFilteredIsFilter(tickets, user, f);
    FilterIsSubseq(tickets, AdmitsTest(user, f));
  }

  /** An EMPLOYEE sees only their own tickets, a DO only their department's. */
  lemma RoleScopeHolds(tickets: seq<Ticket>, u: User, f: TicketFilters, t: Ticket)
    requires t in GetFilteredTickets(tickets, Some(u), f)
    ensures u.role == EMPLOYEE ==> t.createdBy == u.id
    ensures u.role == DO ==> t.department == u.department
  {
    FilteredTicketsCharacterised(tickets, Some(u), f);
  }

  /** The `createdBy` filter has no effect. */
  lemma CreatedByIgnored(tickets: seq<Ticket>, user: Option<User>, f: TicketFilters, c: Option<string>)
    ensures GetFilteredTickets(tickets, user, f.(createdBy := c)) == GetFilteredTickets(tickets, user, f)
  {
  }

  /** The filters with nothing applied. */
  const NoFilters := TicketFilters(None, None, None, None, None, None)

  /** An EO, or a visitor with no user, with no filter applied sees the whole store. */
  lemma EoUnfilteredSeesAll(tickets: seq<Ticket>, user: Option<User>)
    requires user.None? || user.value.role == EO
    ensures GetFilteredTickets(tickets, user, NoFilters) == tickets
  {
    GetFilteredIsFilter(tickets, user, NoFilters);
    FilterKeepsAll(tickets, AdmitsTest(user, NoFilters));
  }

  /** Why `updateStep` refuses before calling the backend. */
  datatype StepGateError = NotAuthenticated | NoModuleSelected | AttachmentsRequired

  /** An update without a non-empty attachment list. */
  predicate LacksAttachments(u: StepUpdate)
  {
    u.attachments.None? || u.attachments.value == []
  }

  /** The checks `updateStep` makes, in order; `None` means the call goes through to the backend. */
  function UpdateStepGate(user: Option<User>, moduleSelected: bool, u: StepUpdate): (r: Option<StepGateError>)
    ensures r.None? ==> user.Some? && moduleSelected
    ensures r == Some(AttachmentsRequired) ==> user.Some? && user.value.role == DO && u.status == Some(STEP_COMPLETED)
  {
    if user.None? then Some(NotAuthenticated)
    else if !moduleSelected then Some(NoModuleSelected)
    else if user.value.role == DO && u.status == Some(STEP_COMPLETED) && LacksAttachments(u) then
      Some(AttachmentsRequired)
    else None
  }

  /**
    A signed-in user with a module is stopped only as a DO completing a step
    without attachments; anyone else, and any other status, passes.
   */
  lemma UpdateStepGateCharacterised(u: User, update: StepUpdate)
    ensures UpdateStepGate(Some(u), true, update).None? <==>
      !(u.role == DO && update.status == Some(STEP_COMPLETED) && LacksAttachments(update))
    ensures u.role != DO ==> UpdateStepGate(Some(u), true, update).None?
  {
  }
}
