/**
  The dashboard: its own ticket filter chain over the search panel's
  filters (search on title, description and ticket number; status;
  priority; a department filter that keeps everything; assignee, with
  `unassigned` meaning "no assignee"), the expanded-card set, and the
  status-card filter copied into the search filters.
 */
module Dashboard {
  import opened Common
  import opened TicketTypes
  import opened SearchPanel

  /** The search: the lower-cased term is a substring of the lower-cased title, description or ticket number. */
  predicate SearchMatches(term: string, t: Ticket)
  {
    var q := ToLower(term);
    Contains(ToLower(t.title), q) || Contains(ToLower(t.description), q) || Contains(ToLower(t.ticketNumber), q)
  }

  /** `!ticket.assignedTo`: no assignee, or the empty string. */
  predicate Unassigned(t: Ticket)
  {
    t.assignedTo.None? || t.assignedTo.value == ""
  }

  /** The assignee test: `unassigned` selects unassigned tickets, any other value an equal assignee. */
  predicate AssigneeMatches(a: string, t: Ticket)
  {
    if a == "unassigned" then Unassigned(t) else t.assignedTo == Some(a)
  }

  function SearchTest(f: SearchFilters): Ticket -> bool { (t: Ticket) => SearchMatches(f.search, t) }
  function StatusTest(f: SearchFilters): Ticket -> bool { (t: Ticket) => StatusName(t.status) == f.status }
  function PriorityTest(f: SearchFilters): Ticket -> bool { (t: Ticket) => PriorityName(t.priority) == f.priority }
  /** The department stage's test is a placeholder that keeps every ticket. */
  function DepartmentTest(f: SearchFilters): Ticket -> bool { (t: Ticket) => true }
  function AssigneeTest(f: SearchFilters): Ticket -> bool { (t: Ticket) => AssigneeMatches(f.assignedTo, t) }

  /** `filteredTickets`: one filter per non-empty field, in the source's order. */
  function FilteredTickets(tickets: seq<Ticket>, f: SearchFilters): seq<Ticket>
  {
    var bySearch := Stage(tickets, f.search != "", SearchTest(f));
    var byStatus := Stage(bySearch, f.status != "", StatusTest(f));
    var byPriority := Stage(byStatus, f.priority != "", PriorityTest(f));
    var byDepartment := Stage(byPriority, f.department != "", DepartmentTest(f));
    Stage(byDepartment, f.assignedTo != "", AssigneeTest(f))
  }

  predicate PassesSearch(f: SearchFilters, t: Ticket) { f.search != "" ==> SearchMatches(f.search, t) }
  predicate PassesStatus(f: SearchFilters, t: Ticket) { f.status != "" ==> StatusName(t.status) == f.status }
  predicate PassesPriority(f: SearchFilters, t: Ticket) { f.priority != "" ==> PriorityName(t.priority) == f.priority }
  predicate PassesAssignee(f: SearchFilters, t: Ticket) { f.assignedTo != "" ==> AssigneeMatches(f.assignedTo, t) }

  /** The single condition the chain amounts to; the department field plays no part. */
  predicate Shows(f: SearchFilters, t: Ticket)
  {
    PassesSearch(f, t) && PassesStatus(f, t) && PassesPriority(f, t) && PassesAssignee(f, t)
  }

  function ShowsTest(f: SearchFilters): Ticket -> bool { (t: Ticket) => Shows(f, t) }

  /** The chain of filters is one filter by `Shows`. */
  lemma FilteredIsFilter(tickets: seq<Ticket>, f: SearchFilters)
    ensures FilteredTickets(tickets, f) == Filter(tickets, ShowsTest(f))
  {
    var p0 := (t: Ticket) => true;
    var p1 := (t: Ticket) => PassesSearch(f, t);
    var p2 := (t: Ticket) => PassesSearch(f, t) && PassesStatus(f, t);
    var p3 := (t: Ticket) => PassesSearch(f, t) && PassesStatus(f, t) && PassesPriority(f, t);
    FilterKeepsAll(tickets, p0);
    StageAfterFilter(tickets, p0, f.search != "", SearchTest(f), p1);
    StageAfterFilter(tickets, p1, f.status != "", StatusTest(f), p2);
    StageAfterFilter(tickets, p2, f.priority != "", PriorityTest(f), p3);
    StageAfterFilter(tickets, p3, f.department != "", DepartmentTest(f), p3);
    StageAfterFilter(tickets, p3, f.assignedTo != "", AssigneeTest(f), ShowsTest(f));
  }

  /** The result keeps the store's order and holds exactly the tickets `Shows` admits. */
  lemma FilteredCharacterised(tickets: seq<Ticket>, f: SearchFilters)
    ensures IsSubseq(FilteredTickets(tickets, f), tickets)
    ensures forall t :: t in FilteredTickets(tickets, f) <==> t in tickets && Shows(f, t)
  {
    FilteredIsFilter(tickets, f);
    FilterIsSubseq(tickets, ShowsTest(f));
  }

  /** The department filter keeps every ticket: changing it never changes the list. */
  lemma DepartmentIgnored(tickets: seq<Ticket>, f: SearchFilters, d: string)
    ensures FilteredTickets(tickets, f.(department := d)) == FilteredTickets(tickets, f)
  {
    var g := f.(department := d);
    FilteredIsFilter(tickets, f);
    FilteredIsFilter(tickets, g);
    forall t | t in tickets ensures ShowsTest(g)(t) == ShowsTest(f)(t) {
      assert PassesSearch(g, t) == PassesSearch(f, t) && PassesStatus(g, t) == PassesStatus(f, t);
      assert PassesPriority(g, t) == PassesPriority(f, t) && PassesAssignee(g, t) == PassesAssignee(f, t);
    }
    FilterExt(tickets, ShowsTest(g), ShowsTest(f));
  }

  /** With only `unassigned` selected, the list is exactly the tickets without assignee, in order. */
  lemma UnassignedSelectsUnassigned(tickets: seq<Ticket>)
    ensures FilteredTickets(tickets, EmptyFilters.(assignedTo := "unassigned"))
      == Filter(tickets, (t: Ticket) => Unassigned(t))
  {
    var f := EmptyFilters.(assignedTo := "unassigned");
    FilteredIsFilter(tickets, f);
    FilterExt(tickets, ShowsTest(f), (t: Ticket) => Unassigned(t));
  }

  /** With no filter applied the whole list is shown. */
  lemma ClearedShowsAll(tickets: seq<Ticket>)
    ensures FilteredTickets(tickets, EmptyFilters) == tickets
  {
  }

  /** `handleToggleExpand`: remove the id if present, add it otherwise. */
  function ToggleExpand(expanded: set<string>, id: string): (r: set<string>)
    ensures id in r <==> id !in expanded
    ensures forall x :: x != id ==> (x in r <==> x in expanded)
  {
    if id in expanded then expanded - {id} else expanded + {id}
  }

  /** Toggling the same card twice restores the set. */
  lemma ToggleTwice(expanded: set<string>, id: string)
    ensures ToggleExpand(ToggleExpand(expanded, id), id) == expanded
  {
  }

  /** The status-card effect: `status: statusFilter || ''`, every other field as it was. */
  function SyncStatus(prev: SearchFilters, statusFilter: Option<TicketStatus>): (r: SearchFilters)
    ensures r == WithKey(prev, StatusKey, if statusFilter.Some? then StatusName(statusFilter.value) else "")
  {
    prev.(status := if statusFilter.Some? then StatusName(statusFilter.value) else "")
  }

  /** After the sync, a selected card shows exactly the tickets of its status among those the other filters admit. */
  lemma SyncedStatusFilters(tickets: seq<Ticket>, prev: SearchFilters, s: TicketStatus)
    ensures forall t :: t in FilteredTickets(tickets, SyncStatus(prev, Some(s))) <==>
      t in FilteredTickets(tickets, prev.(status := "")) && t.status == s
  {
    var synced := SyncStatus(prev, Some(s));
    var cleared := prev.(status := "");
    assert synced == cleared.(status := StatusName(s));
    FilteredCharacterised(tickets, synced);
    FilteredCharacterised(tickets, cleared);
    forall t ensures t in FilteredTickets(tickets, synced) <==> t in FilteredTickets(tickets, cleared) && t.status == s {
      StatusNameInjective(t.status, s);
      assert PassesStatus(synced, t) <==> t.status == s;
      assert PassesSearch(synced, t) == PassesSearch(cleared, t) && PassesStatus(cleared, t);
      assert PassesPriority(synced, t) == PassesPriority(cleared, t) && PassesAssignee(synced, t) == PassesAssignee(cleared, t);
    }
  }
}
