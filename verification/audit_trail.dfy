/**
  The ticket's audit trail panel: the role filter (an EMPLOYEE sees only
  status changes, creation and updates), the free-text search, the
  description shown for each entry, and the newest-first sort. The sort
  works in place; when neither the role filter nor the search applies, the
  array it sorts is the ticket's own audit trail.
 */
module AuditTrail {
  import opened Common
  import opened TicketTypes

  /** A template literal's rendering of an optional value: `undefined` when absent. */
  function Shown(o: Option<string>): string
  {
    if o.Some? then o.value else "undefined"
  }

  /** The actions with a dedicated description. */
  predicate IsKnownAction(action: string)
  {
    action == "CREATED" || action == "STATUS_CHANGE" || action == "UPDATED"
    || action == "STEP_ADDED" || action == "STEP_UPDATED" || action == "STEP_DELETED"
  }

  /** `getActionDescription` */
  function ActionDescription(e: AuditEntry): (d: string)
    ensures !IsKnownAction(e.action) ==> d == e.action
    ensures e.action == "STATUS_CHANGE" ==> d == "Status changed from " + Shown(e.oldValue) + " to " + Shown(e.newValue)
  {
    if e.action == "CREATED" then "Ticket created"
    else if e.action == "STATUS_CHANGE" then "Status changed from " + Shown(e.oldValue) + " to " + Shown(e.newValue)
    else if e.action == "UPDATED" then "Ticket updated"
    else if e.action == "STEP_ADDED" then "Added step: " + Shown(e.newValue)
    else if e.action == "STEP_UPDATED" then "Updated step: " + Shown(e.newValue)
    else if e.action == "STEP_DELETED" then "Deleted step: " + Shown(e.oldValue)
    else e.action
  }

  /** The entries an EMPLOYEE may see. */
  predicate EmployeeVisible(e: AuditEntry)
  {
    e.action == "STATUS_CHANGE" || e.action == "CREATED" || e.action == "UPDATED"
  }

  predicate IsEmployee(user: Option<User>)
  {
    user.Some? && user.value.role == EMPLOYEE
  }

  /** `getFilteredAuditTrail`: a filtered copy for an EMPLOYEE, the trail itself for anyone else. */
  function RoleFilteredTrail(trail: seq<AuditEntry>, user: Option<User>): seq<AuditEntry>
  {
    if IsEmployee(user) then Filter(trail, EmployeeVisible) else trail
  }

  /** `users.find(u => u.id === id)` */
  function FindUser(users: seq<User>, id: string): (r: Option<User>)
    ensures r.Some? ==> r.value in users && r.value.id == id
    ensures r.None? <==> forall u :: u in users ==> u.id != id
  {
    if users == [] then None
    else if users[0].id == id then Some(users[0])
    else FindUser(users[1..], id)
  }

  /** The lookup returns the first user with the id, whatever follows. */
  lemma {:induction false} FindUserFirst(pre: seq<User>, u: User, post: seq<User>, id: string)
    requires u.id == id && forall x :: x in pre ==> x.id != id
    ensures FindUser(pre + [u] + post, id) == Some(u)
  {
    if pre != [] {
      assert (pre + [u] + post)[1..] == pre[1..] + [u] + post;
      FindUserFirst(pre[1..], u, post, id);
    }
  }

  /** The lower-cased name of the entry's author, or the empty string. */
  function AuthorName(users: seq<User>, e: AuditEntry): string
  {
    match FindUser(users, e.userId)
    case None => ""
    case Some(u) => ToLower(u.name)
  }

  /** The search test for a lower-cased term `q`: author name, action, remarks or description contains it. */
  predicate EntryMatches(users: seq<User>, q: string, e: AuditEntry)
  {
    Contains(AuthorName(users, e), q)
    || Contains(ToLower(e.action), q)
    || Contains(ToLower(e.remarks.GetOr("")), q)
    || Contains(ToLower(ActionDescription(e)), q)
  }

  /** The search runs when the trimmed term is not empty; it matches with the untrimmed, lower-cased term. */
  predicate SearchApplies(term: string)
  {
    Trim(term) != ""
  }

  function SearchTest(users: seq<User>, term: string): AuditEntry -> bool
  {
    (e: AuditEntry) => EntryMatches(users, ToLower(term), e)
  }

  /** The entries that survive the role filter and the search, in trail order (before the sort). */
  function SelectedEntries(trail: seq<AuditEntry>, users: seq<User>, user: Option<User>, term: string)
    : (r: seq<AuditEntry>)
    ensures multiset(r) <= multiset(trail)
  {
    var byRole := RoleFilteredTrail(trail, user);
    Stage(byRole, SearchApplies(term), SearchTest(users, term))
  }

  /** An EMPLOYEE only ever sees status changes, creation and updates. */
  lemma EmployeeSeesThreeActions(trail: seq<AuditEntry>, users: seq<User>, u: User, term: string)
    requires u.role == EMPLOYEE
    ensures forall e :: e in SelectedEntries(trail, users, Some(u), term) ==> EmployeeVisible(e)
  {
  }

  /** A blank or white-space term searches nothing: EO and DO (or no user) get the whole trail. */
  lemma BlankSearchKeepsAll(trail: seq<AuditEntry>, users: seq<User>, user: Option<User>, term: string)
    requires IsBlank(term)
    ensures SelectedEntries(trail, users, user, term) == RoleFilteredTrail(trail, user)
    ensures !IsEmployee(user) ==> SelectedEntries(trail, users, user, term) == trail
  {
    TrimEmptyIffBlank(term);
  }

  /** With a non-blank term, an entry survives exactly when the role filter admits it and it matches. */
  lemma SearchKeepsMatches(trail: seq<AuditEntry>, users: seq<User>, user: Option<User>, term: string)
    requires !IsBlank(term)
    ensures forall e :: e in SelectedEntries(trail, users, user, term) <==>
      e in trail && (IsEmployee(user) ==> EmployeeVisible(e)) && EntryMatches(users, ToLower(term), e)
  {
    TrimEmptyIffBlank(term);
  }

  /** Newest first: timestamps never increase along the sequence. */
  predicate NewestFirst(s: seq<AuditEntry>)
  {
    forall k, l :: 0 <= k < l < |s| ==> s[k].timestamp >= s[l].timestamp
  }

  /** `filtered.sort((a, b) => b.timestamp - a.timestamp)`, in place, by insertion. */
  method SortNewestFirst(a: array<AuditEntry>)
    modifies a
    ensures NewestFirst(a[..])
    ensures multiset(a[..]) == multiset(old(a[..]))
  {
    var i := 0;
    while i < a.Length
      invariant 0 <= i <= a.Length
      invariant NewestFirst(a[..i])
      invariant multiset(a[..]) == multiset(old(a[..]))
    {
      InsertBackward(a, i);
      i := i + 1;
    }
    assert a[..i] == a[..];
  }

  /**
    The state of the insertion of `s[..i + 1]`'s last entry, now at `j`:
    the others are newest first, the moving entry is newer than everything
    after it, and its two neighbours are in order with each other.
   */
  predicate Inserting(s: seq<AuditEntry>, i: int, j: int)
  {
    0 <= j <= i < |s|
    && (forall k, l :: 0 <= k < l <= i && k != j && l != j ==> s[k].timestamp >= s[l].timestamp)
    && (forall l :: j < l <= i ==> s[j].timestamp > s[l].timestamp)
    && (0 < j < i ==> s[j - 1].timestamp >= s[j + 1].timestamp)
  }

  lemma InsertingStart(s: seq<AuditEntry>, i: int)
    requires 0 <= i < |s| && NewestFirst(s[..i])
    ensures Inserting(s, i, i)
  {
    forall k, l | 0 <= k < l < i ensures s[k].timestamp >= s[l].timestamp {
      assert s[k] == s[..i][k] && s[l] == s[..i][l];
    }
  }

  lemma InsertingSwap(s: seq<AuditEntry>, i: int, j: int)
    requires Inserting(s, i, j) && j > 0 && s[j - 1].timestamp < s[j].timestamp
    ensures Inserting(s[j - 1 := s[j]][j := s[j - 1]], i, j - 1)
  {
  }

  lemma InsertingDone(s: seq<AuditEntry>, i: int, j: int)
    requires Inserting(s, i, j) && (j == 0 || s[j - 1].timestamp >= s[j].timestamp)
    ensures NewestFirst(s[..i + 1])
  {
    forall k, l | 0 <= k < l <= i ensures s[k].timestamp >= s[l].timestamp {
      if l == j && k < j - 1 {
        assert s[k].timestamp >= s[j - 1].timestamp;
      }
    }
  }

  /** Moves `a[i]` down past every older-timestamped entry before it, so that `a[..i + 1]` is newest first. */
  method InsertBackward(a: array<AuditEntry>, i: int)
    requires 0 <= i < a.Length && NewestFirst(a[..i])
    modifies a
    ensures NewestFirst(a[..i + 1])
    ensures multiset(a[..]) == multiset(old(a[..]))
  {
    var j := i;
    InsertingStart(a[..], i);
    while j > 0 && a[j - 1].timestamp < a[j].timestamp
      invariant Inserting(a[..], i, j)
      invariant multiset(a[..]) == multiset(old(a[..]))
    {
      InsertingSwap(a[..], i, j);
      SwapWithPrevious(a, j);
      j := j - 1;
    }
    InsertingDone(a[..], i, j);
  }

  /** Exchanges `a[j - 1]` and `a[j]`. */
  method SwapWithPrevious(a: array<AuditEntry>, j: int)
    requires 0 < j < a.Length
    modifies a
    ensures a[..] == old(a[..])[j - 1 := old(a[j])][j := old(a[j - 1])]
    ensures multiset(a[..]) == multiset(old(a[..]))
  {
    a[j - 1], a[j] := a[j], a[j - 1];
  }

  /** Whether the source sorts the ticket's own array: no role filter and no search. */
  predicate SortsTrailItself(user: Option<User>, term: string)
  {
    !IsEmployee(user) && !SearchApplies(term)
  }

  /**
    `filteredAndSortedAuditTrail`. The result holds the selected entries,
    newest first. When neither filter applies it is the trail array itself,
    which is reordered; otherwise it is a new array and the trail is left
    as it was.
   */
  method FilteredAndSortedAuditTrail(trail: array<AuditEntry>, users: seq<User>, user: Option<User>, term: string)
    returns (out: array<AuditEntry>)
    modifies trail
    ensures SortsTrailItself(user, term) ==> out == trail
    ensures !SortsTrailItself(user, term) ==> fresh(out) && trail[..] == old(trail[..])
    ensures NewestFirst(out[..])
    ensures multiset(out[..]) == multiset(SelectedEntries(old(trail[..]), users, user, term))
  {
    var selected := SelectedEntries(trail[..], users, user, term);
    if SortsTrailItself(user, term) {
      NoFilterSelectsAll(trail[..], users, user, term);
    }
    out := SortSelection(trail, selected, SortsTrailItself(user, term));
  }

  /**
    Sorts the selection newest first: in the trail array itself when
    `inPlace` (the selection is then the whole trail), in a new array
    otherwise.
   */
  method SortSelection(trail: array<AuditEntry>, selected: seq<AuditEntry>, inPlace: bool)
    returns (out: array<AuditEntry>)
    requires inPlace ==> selected == trail[..]
    modifies trail
    ensures inPlace ==> out == trail
    ensures !inPlace ==> fresh(out) && trail[..] == old(trail[..])
    ensures NewestFirst(out[..])
    ensures multiset(out[..]) == multiset(selected)
  {
    if inPlace {
      out := trail;
    } else {
      out := new AuditEntry[|selected|](i requires 0 <= i < |selected| => selected[i]);
      assert out[..] == selected;
    }
    SortNewestFirst(out);
  }

  /** Without role filter and search, the selection is the whole trail. */
  lemma NoFilterSelectsAll(trail: seq<AuditEntry>, users: seq<User>, user: Option<User>, term: string)
    requires SortsTrailItself(user, term)
    ensures SelectedEntries(trail, users, user, term) == trail
  {
  }

  /** Whatever the role and the term, the panel shows no entry the trail lacks and none twice as often. */
  lemma PanelWithinTrail(trail: seq<AuditEntry>, users: seq<User>, user: Option<User>, term: string, shown: seq<AuditEntry>)
    requires multiset(shown) == multiset(SelectedEntries(trail, users, user, term))
    ensures multiset(shown) <= multiset(trail)
    ensures |shown| <= |trail|
  {
    var sel := SelectedEntries(trail, users, user, term);
    assert |shown| == |multiset(shown)| == |multiset(sel)| <= |multiset(trail)| == |trail| by {
      assert multiset(sel) <= multiset(trail);
      MultisetSubsetSize(multiset(sel), multiset(trail));
    }
  }

  lemma MultisetSubsetSize<T>(a: multiset<T>, b: multiset<T>)
    requires a <= b
    ensures |a| <= |b|
  {
    assert b == a + (b - a);
  }
}
