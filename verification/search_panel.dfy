/**
  The dashboard's search panel: the five text filters, the single-key
  update and the reset, whether any filter is active, and the department
  and assignee pickers.
 */
module SearchPanel {
  import opened Common
  import opened TicketTypes

  /**
    `SearchFilters`, shared by the panel and the dashboard. Every field is a
    string and `''` means "not applied"; `status` holds a status name.
   */
  datatype SearchFilters = SearchFilters(
    search: string,
    status: string,
    assignedTo: string,
    priority: string,
    department: string)

  /** `keyof SearchFilters` */
  datatype FilterKey = SearchKey | StatusKey | AssignedToKey | PriorityKey | DepartmentKey

  function Get(f: SearchFilters, k: FilterKey): string
  {
    match k
    case SearchKey => f.search
    case StatusKey => f.status
    case AssignedToKey => f.assignedTo
    case PriorityKey => f.priority
    case DepartmentKey => f.department
  }

  /** `handleFilterChange`: `{ ...filters, [key]: value }`. */
  function WithKey(f: SearchFilters, k: FilterKey, v: string): (r: SearchFilters)
    ensures Get(r, k) == v
    ensures forall k' :: k' != k ==> Get(r, k') == Get(f, k')
  {
    match k
    case SearchKey => f.(search := v)
    case StatusKey => f.(status := v)
    case AssignedToKey => f.(assignedTo := v)
    case PriorityKey => f.(priority := v)
    case DepartmentKey => f.(department := v)
  }

  /** Two filter records that agree on every key are the same record. */
  lemma FiltersExtensional(f: SearchFilters, g: SearchFilters)
    requires forall k :: Get(f, k) == Get(g, k)
    ensures f == g
  {
    assert Get(f, SearchKey) == Get(g, SearchKey) && Get(f, StatusKey) == Get(g, StatusKey);
    assert Get(f, AssignedToKey) == Get(g, AssignedToKey) && Get(f, PriorityKey) == Get(g, PriorityKey);
    assert Get(f, DepartmentKey) == Get(g, DepartmentKey);
  }

  /** Setting a key to the value it already has changes nothing; a second setting of the same key overrides the first. */
  lemma WithKeyLaws(f: SearchFilters, k: FilterKey, v: string, w: string)
    ensures WithKey(f, k, Get(f, k)) == f
    ensures WithKey(WithKey(f, k, v), k, w) == WithKey(f, k, w)
  {
    FiltersExtensional(WithKey(f, k, Get(f, k)), f);
    FiltersExtensional(WithKey(WithKey(f, k, v), k, w), WithKey(f, k, w));
  }

  /** The record `clearFilters` sends. */
  const EmptyFilters := SearchFilters("", "", "", "", "")

  /** `hasActiveFilters`: some field is not empty. */
  predicate HasActiveFilters(f: SearchFilters)
  {
    f.search != "" || f.status != "" || f.assignedTo != "" || f.priority != "" || f.department != ""
  }

  /** A filter record is active exactly when it differs from the cleared one; so clearing deactivates. */
  lemma ActiveIffNotCleared(f: SearchFilters)
    ensures HasActiveFilters(f) <==> f != EmptyFilters
    ensures !HasActiveFilters(EmptyFilters)
    ensures forall k :: Get(EmptyFilters, k) == ""
  {
  }

  /** Setting any key to a non-empty value makes the filters active. */
  lemma NonEmptyKeyActivates(f: SearchFilters, k: FilterKey, v: string)
    requires v != ""
    ensures HasActiveFilters(WithKey(f, k, v))
  {
  }

  /** Every user's department, in store order. */
  function Departments(users: seq<User>): (r: seq<string>)
    ensures |r| == |users|
    ensures forall i :: 0 <= i < |users| ==> r[i] == users[i].department
  {
    seq(|users|, i requires 0 <= i < |users| => users[i].department)
  }

  /** `availableDepartments`: `[...new Set(users.map(u => u.department))]`. */
  function AvailableDepartments(users: seq<User>): (r: seq<string>)
    ensures NoDuplicates(r)
    ensures forall d :: d in r <==> d in Departments(users)
  {
    Dedup(Departments(users))
  }

  /** Every user's department is offered, and nothing else is. */
  lemma DepartmentsCovered(users: seq<User>)
    ensures forall u :: u in users ==> u.department in AvailableDepartments(users)
    ensures forall d :: d in AvailableDepartments(users) ==> exists i :: 0 <= i < |users| && users[i].department == d
  {
    var ds := Departments(users);
    forall u | u in users ensures u.department in AvailableDepartments(users) {
      var i :| 0 <= i < |users| && users[i] == u;
      assert ds[i] == u.department;
    }
  }

  /** Whether the panel's assignee picker lists a user. */
  predicate Listed(user: Option<User>, u: User)
  {
    if user.Some? && user.value.role == EMPLOYEE then u.id == user.value.id
    else if user.Some? && user.value.role == DO then u.department == user.value.department
    else true
  }

  /** `availableUsers` in the panel. */
  function AvailableUsers(users: seq<User>, user: Option<User>): (r: seq<User>)
    ensures forall u :: u in r <==> u in users && Listed(user, u)
  {
    Filter(users, (u: User) => Listed(user, u))
  }

  /** An EO, or no user, is offered every user in store order; an EMPLOYEE only users with their own id. */
  lemma PanelUsersByRole(users: seq<User>, user: Option<User>)
    ensures user.None? || user.value.role == EO ==> AvailableUsers(users, user) == users
    ensures user.Some? && user.value.role == EMPLOYEE ==>
      forall u :: u in AvailableUsers(users, user) ==> u.id == user.value.id
    ensures IsSubseq(AvailableUsers(users, user), users)
  {
    var p := (u: User) => Listed(user, u);
    FilterIsSubseq(users, p);
    if user.None? || user.value.role == EO {
      FilterKeepsAll(users, p);
    }
  }
}
