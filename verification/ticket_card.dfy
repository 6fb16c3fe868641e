/**
  The dashboard card's action menu: the permission predicates behind each
  menu entry and the construction of the menu itself. Unlike the detail
  view, these predicates look at the status for every role, and the
  status-changing entries are never offered to an EMPLOYEE.
 */
module TicketCard {
  import opened Common
  import opened TicketTypes
  import TicketView

  predicate IsOfficer(user: Option<User>)
  {
    user.Some? && (user.value.role == EO || user.value.role == DO)
  }

  /** `canModify`: DRAFT or CREATED, and EO, DO of the ticket's department, or the creating EMPLOYEE. */
  predicate CanModify(user: Option<User>, t: Ticket)
  {
    user.Some? &&
    IsEditableStatus(t.status) &&
    (user.value.role == EO
     || (user.value.role == DO && t.department == user.value.department)
     || (user.value.role == EMPLOYEE && t.createdBy == user.value.id))
  }

  predicate CanApprove(user: Option<User>, t: Ticket)
  {
    user.Some? && t.status == CREATED && IsOfficer(user)
  }

  predicate CanCloseOrCancel(user: Option<User>, t: Ticket)
  {
    user.Some? && t.status == ACTIVE && IsOfficer(user)
  }

  predicate CanReopen(user: Option<User>, t: Ticket)
  {
    user.Some? && t.status == CLOSED && IsOfficer(user)
  }

  predicate CanReinstate(user: Option<User>, t: Ticket)
  {
    user.Some? && t.status == CANCELLED && IsOfficer(user)
  }

  predicate CanMarkInProgress(user: Option<User>, t: Ticket)
  {
    user.Some? && t.status == CREATED && IsOfficer(user)
  }

  /**
    The card's modify right is the view's edit right limited to DRAFT and
    CREATED, even for an EO; it therefore implies the view's delete right.
   */
  lemma CanModifyIsEditableEdit(user: Option<User>, t: Ticket)
    ensures CanModify(user, t) <==> TicketView.CanEdit(user, t) && IsEditableStatus(t.status)
    ensures CanModify(user, t) ==> TicketView.CanDelete(user, t)
  {
  }

  /** Approve and Mark In Progress are offered under the very same condition. */
  lemma ApproveIsMarkInProgress(user: Option<User>, t: Ticket)
    ensures CanApprove(user, t) <==> CanMarkInProgress(user, t)
    ensures CanApprove(user, t) <==> t.status == CREATED && IsOfficer(user)
  {
  }

  /** Close/Cancel, Reopen and Reinstate hold exactly for an officer on ACTIVE, CLOSED and CANCELLED tickets. */
  lemma StatusGatedEntries(user: Option<User>, t: Ticket)
    ensures CanCloseOrCancel(user, t) <==> IsOfficer(user) && t.status == ACTIVE
    ensures CanReopen(user, t) <==> IsOfficer(user) && t.status == CLOSED
    ensures CanReinstate(user, t) <==> IsOfficer(user) && t.status == CANCELLED
  {
  }

  /** An EMPLOYEE is never offered a status-changing entry. */
  lemma EmployeeOnlyModifies(u: User, t: Ticket)
    requires u.role == EMPLOYEE
    ensures !CanApprove(Some(u), t) && !CanMarkInProgress(Some(u), t) && !CanCloseOrCancel(Some(u), t)
    ensures !CanReopen(Some(u), t) && !CanReinstate(Some(u), t)
  {
  }

  /** At most one of the four status-gated groups is enabled for any ticket. */
  lemma StatusGroupsExclusive(user: Option<User>, t: Ticket)
    ensures (if CanApprove(user, t) then 1 else 0) + (if CanCloseOrCancel(user, t) then 1 else 0)
          + (if CanReopen(user, t) then 1 else 0) + (if CanReinstate(user, t) then 1 else 0) <= 1
  {
  }

  /**
    The card offers moves the detail view's table does not list: "Close"
    on an ACTIVE ticket (no table entry targets CLOSED) and "Mark In
    Progress" on a CREATED one.
   */
  lemma CardBeyondViewTable()
    ensures CLOSED !in TicketView.ViewTable(ACTIVE)
    ensures IN_PROGRESS !in TicketView.ViewTable(CREATED)
    ensures APPROVED in TicketView.ViewTable(CREATED) && CREATED in TicketView.ViewTable(CANCELLED)
    ensures ACTIVE in TicketView.ViewTable(CLOSED)
  {
  }

  /** The entries of the card's action menu. */
  datatype MenuAction = Modify | MarkInProgress | Approve | Close | Cancel | Reopen | Reinstate | ViewDetails

  /** The position of each entry in the menu: the order in which `ActionMenu` pushes them. */
  function Rank(a: MenuAction): nat
  {
    match a
    case Modify => 0
    case MarkInProgress => 1
    case Approve => 2
    case Close => 3
    case Cancel => 4
    case Reopen => 5
    case Reinstate => 6
    case ViewDetails => 7
  }

  /** Whether an entry is offered to this user on this ticket. */
  predicate Offered(user: Option<User>, t: Ticket, a: MenuAction)
  {
    match a
    case Modify => CanModify(user, t)
    case MarkInProgress => CanMarkInProgress(user, t)
    case Approve => CanApprove(user, t)
    case Close => CanCloseOrCancel(user, t)
    case Cancel => CanCloseOrCancel(user, t)
    case Reopen => CanReopen(user, t)
    case Reinstate => CanReinstate(user, t)
    case ViewDetails => true
  }

  /** The entries are listed in strictly increasing rank, hence each at most once. */
  predicate InMenuOrder(actions: seq<MenuAction>)
  {
    forall i, j :: 0 <= i < j < |actions| ==> Rank(actions[i]) < Rank(actions[j])
  }

  /** The number of menu entries. */
  const MenuSize := 8

  /** The entry of each rank: the inverse of `Rank`. */
  function EntryOfRank(i: nat): (a: MenuAction)
    requires i < MenuSize
    ensures Rank(a) == i
  {
    if i == 0 then Modify
    else if i == 1 then MarkInProgress
    else if i == 2 then Approve
    else if i == 3 then Close
    else if i == 4 then Cancel
    else if i == 5 then Reopen
    else if i == 6 then Reinstate
    else ViewDetails
  }

  lemma RankBijective()
    ensures forall a, b :: Rank(a) == Rank(b) ==> a == b
    ensures forall a :: Rank(a) < MenuSize
  {
  }

  /** `EntryOfRank` undoes `Rank`. */
  lemma RankInverse(a: MenuAction)
    ensures Rank(a) < MenuSize && EntryOfRank(Rank(a)) == a
  {
  }

  /** The offered entries among the first `k` of the menu order, in that order. */
  function MenuUpTo(user: Option<User>, t: Ticket, k: nat): seq<MenuAction>
    requires k <= MenuSize
  {
    if k == 0 then []
    else
      var a := EntryOfRank(k - 1);
      MenuUpTo(user, t, k - 1) + (if Offered(user, t, a) then [a] else [])
  }

  /** Appending an entry that outranks every listed one keeps a list in menu order. */
  lemma AppendInMenuOrder(prev: seq<MenuAction>, a: MenuAction)
    requires InMenuOrder(prev)
    requires forall x :: x in prev ==> Rank(x) < Rank(a)
    ensures InMenuOrder(prev + [a])
  {
    var next := prev + [a];
    forall i, j | 0 <= i < j < |next| ensures Rank(next[i]) < Rank(next[j]) {
      assert next[i] == prev[i] && next[i] in prev;
      if j < |prev| {
        assert next[j] == prev[j];
      }
    }
  }

  /** The first `k` ranks of the menu hold exactly the offered entries ranked below `k`. */
  lemma {:induction false} MenuUpToMembers(user: Option<User>, t: Ticket, k: nat)
    requires k <= MenuSize
    ensures forall a :: a in MenuUpTo(user, t, k) <==> Rank(a) < k && Offered(user, t, a)
  {
    if k > 0 {
      MenuUpToMembers(user, t, k - 1);
      var a := EntryOfRank(k - 1);
      assert MenuUpTo(user, t, k) == MenuUpTo(user, t, k - 1) + (if Offered(user, t, a) then [a] else []);
      forall x ensures x in MenuUpTo(user, t, k) <==> Rank(x) < k && Offered(user, t, x) {
        if Rank(x) == k - 1 {
          RankInverse(x);
        }
      }
    }
  }

  /** The first `k` ranks of the menu are listed in menu order. */
  lemma {:induction false} MenuUpToOrdered(user: Option<User>, t: Ticket, k: nat)
    requires k <= MenuSize
    ensures InMenuOrder(MenuUpTo(user, t, k))
  {
    if k > 0 {
      MenuUpToOrdered(user, t, k - 1);
      MenuUpToMembers(user, t, k - 1);
      var prev := MenuUpTo(user, t, k - 1);
      var a := EntryOfRank(k - 1);
      if Offered(user, t, a) {
        AppendInMenuOrder(prev, a);
      }
    }
  }

  /** The whole menu holds exactly the offered entries, in menu order, and ends with "View Details". */
  lemma MenuProperties(user: Option<User>, t: Ticket, actions: seq<MenuAction>)
    requires actions == MenuUpTo(user, t, MenuSize)
    ensures forall a :: a in actions <==> Offered(user, t, a)
    ensures InMenuOrder(actions)
    ensures |actions| >= 1 && actions[|actions| - 1] == ViewDetails
  {
    MenuUpToMembers(user, t, MenuSize);
    MenuUpToOrdered(user, t, MenuSize);
    RankBijective();
  }

  /**
    `ActionMenu`'s list, built by successive pushes. It holds exactly the
    offered entries, in the fixed menu order, so it is never empty and
    always ends with "View Details".
   */
  method BuildActionMenu(user: Option<User>, t: Ticket) returns (actions: seq<MenuAction>)
    ensures forall a :: a in actions <==> Offered(user, t, a)
    ensures InMenuOrder(actions)
    ensures |actions| >= 1 && actions[|actions| - 1] == ViewDetails
  {
    actions := [];
    if CanModify(user, t) {
      actions := actions + [Modify];
    }
    assert EntryOfRank(0) == Modify && Offered(user, t, Modify) == CanModify(user, t);
    assert actions == MenuUpTo(user, t, 1);
    if CanMarkInProgress(user, t) {
      actions := actions + [MarkInProgress];
    }
    assert EntryOfRank(1) == MarkInProgress && Offered(user, t, MarkInProgress) == CanMarkInProgress(user, t);
    assert actions == MenuUpTo(user, t, 2);
    if CanApprove(user, t) {
      actions := actions + [Approve];
    }
    assert EntryOfRank(2) == Approve && Offered(user, t, Approve) == CanApprove(user, t);
    assert actions == MenuUpTo(user, t, 3);
    if CanCloseOrCancel(user, t) {
      actions := actions + [Close];
      actions := actions + [Cancel];
    }
    assert EntryOfRank(3) == Close && EntryOfRank(4) == Cancel;
    assert actions == MenuUpTo(user, t, 5);
    if CanReopen(user, t) {
      actions := actions + [Reopen];
    }
    assert EntryOfRank(5) == Reopen && Offered(user, t, Reopen) == CanReopen(user, t);
    assert actions == MenuUpTo(user, t, 6);
    if CanReinstate(user, t) {
      actions := actions + [Reinstate];
    }
    assert EntryOfRank(6) == Reinstate && Offered(user, t, Reinstate) == CanReinstate(user, t);
    assert actions == MenuUpTo(user, t, 7);
    actions := actions + [ViewDetails];
    assert actions == MenuUpTo(user, t, 8);
    MenuProperties(user, t, actions);
  }

  /** The head of a list in menu order ranks below every later entry, and the tail is in menu order. */
  lemma HeadRanksFirst(xs: seq<MenuAction>)
    requires xs != [] && InMenuOrder(xs)
    ensures InMenuOrder(xs[1..])
    ensures forall a :: a in xs[1..] ==> Rank(xs[0]) < Rank(a)
    ensures forall a :: a in xs <==> a == xs[0] || a in xs[1..]
  {
    assert xs == [xs[0]] + xs[1..];
    forall a | a in xs[1..] ensures Rank(xs[0]) < Rank(a) {
      var i :| 0 <= i < |xs[1..]| && xs[1..][i] == a;
      assert xs[i + 1] == a;
    }
    forall i, j | 0 <= i < j < |xs[1..]| ensures Rank(xs[1..][i]) < Rank(xs[1..][j]) {
      assert xs[1..][i] == xs[i + 1] && xs[1..][j] == xs[j + 1];
    }
  }

  /** Two lists in menu order with the same entries are the same list: the menu is determined by `Offered`. */
  lemma {:induction false} MenuDeterminedByOffered(xs: seq<MenuAction>, ys: seq<MenuAction>)
    requires InMenuOrder(xs) && InMenuOrder(ys)
    requires forall a :: a in xs <==> a in ys
    ensures xs == ys
  {
    if xs != [] {
      assert xs[0] in ys;
    }
    if ys != [] {
      assert ys[0] in xs;
    }
    if xs != [] {
      HeadRanksFirst(xs);
      HeadRanksFirst(ys);
      assert xs[0] == ys[0] by {
        assert xs[0] in ys && ys[0] in xs;
      }
      MenuDeterminedByOffered(xs[1..], ys[1..]);
      assert xs == [xs[0]] + xs[1..] && ys == [ys[0]] + ys[1..];
    }
  }
}
