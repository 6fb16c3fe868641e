/**
  The nine status cards above the dashboard: one per status, in the
  order of `AllStatuses`, each showing how many tickets of the store have
  that status, and a click that selects or clears the status filter.
 */
module StatusCards {
  import opened Common
  import opened TicketTypes

  function HasStatusTest(s: TicketStatus): Ticket -> bool { (t: Ticket) => t.status == s }

  /** `getStatusCount`: counted over the whole store, whatever filter is active. */
  function StatusCount(tickets: seq<Ticket>, s: TicketStatus): (n: nat)
    ensures n <= |tickets|
  {
    CountWhere(tickets, HasStatusTest(s))
  }

  /** Adding a ticket in front raises the count of its own status by one and no other. */
  lemma StatusCountCons(t: Ticket, rest: seq<Ticket>, s: TicketStatus)
    ensures StatusCount([t] + rest, s) == (if t.status == s then 1 else 0) + StatusCount(rest, s)
  {
    assert ([t] + rest)[1..] == rest;
  }

  /** The counts of the listed statuses, added up. */
  function CountsSum(tickets: seq<Ticket>, ss: seq<TicketStatus>): nat
  {
    if ss == [] then 0 else StatusCount(tickets, ss[0]) + CountsSum(tickets, ss[1..])
  }

  /** How often a status is listed. */
  function Occurrences(ss: seq<TicketStatus>, s: TicketStatus): nat
  {
    if ss == [] then 0 else (if ss[0] == s then 1 else 0) + Occurrences(ss[1..], s)
  }

  lemma {:induction false} CountsSumCons(t: Ticket, rest: seq<Ticket>, ss: seq<TicketStatus>)
    ensures CountsSum([t] + rest, ss) == Occurrences(ss, t.status) + CountsSum(rest, ss)
  {
    if ss != [] {
      StatusCountCons(t, rest, ss[0]);
      CountsSumCons(t, rest, ss[1..]);
    }
  }

  lemma {:induction false} OccurrencesAbsent(ss: seq<TicketStatus>, s: TicketStatus)
    requires s !in ss
    ensures Occurrences(ss, s) == 0
  {
    if ss != [] {
      OccurrencesAbsent(ss[1..], s);
    }
  }

  /** A status listed in a sequence without duplicates occurs there once. */
  lemma {:induction false} OccurrencesOfDistinct(ss: seq<TicketStatus>, s: TicketStatus)
    requires s in ss && NoDuplicates(ss)
    ensures Occurrences(ss, s) == 1
  {
    assert NoDuplicates(ss[1..]) by {
      forall i, j | 0 <= i < j < |ss| - 1 ensures ss[1..][i] != ss[1..][j] {
        assert ss[1..][i] == ss[i + 1] && ss[1..][j] == ss[j + 1];
      }
    }
    if ss[0] == s {
      assert s !in ss[1..] by {
        forall i | 0 <= i < |ss| - 1 ensures ss[1..][i] != s {
          assert ss[1..][i] == ss[i + 1];
        }
      }
      OccurrencesAbsent(ss[1..], s);
    } else {
      OccurrencesOfDistinct(ss[1..], s);
    }
  }

  /** Every status is listed exactly once on the cards. */
  lemma EachStatusOnce(s: TicketStatus)
    ensures Occurrences(AllStatuses, s) == 1
  {
    AllStatusesExact();
    OccurrencesOfDistinct(AllStatuses, s);
  }

  /** The nine counts add up to the number of tickets. */
  lemma {:induction false} CountsSumToTotal(tickets: seq<Ticket>)
    ensures CountsSum(tickets, AllStatuses) == |tickets|
  {
    if tickets == [] {
      EmptyCountsSum(AllStatuses);
    } else {
      assert tickets == [tickets[0]] + tickets[1..];
      CountsSumCons(tickets[0], tickets[1..], AllStatuses);
      EachStatusOnce(tickets[0].status);
      CountsSumToTotal(tickets[1..]);
    }
  }

  lemma {:induction false} EmptyCountsSum(ss: seq<TicketStatus>)
    ensures CountsSum([], ss) == 0
  {
    if ss != [] {
      EmptyCountsSum(ss[1..]);
    }
  }

  /** A card click: the active card clears the filter, any other card selects its status. */
  function CardClick(active: Option<TicketStatus>, card: TicketStatus): (r: Option<TicketStatus>)
    ensures r == None <==> active == Some(card)
    ensures r.Some? ==> r.value == card
  {
    if active == Some(card) then None else Some(card)
  }

  /** Clicking a card twice from any other state leaves the filter cleared; from the cleared state it selects and clears. */
  lemma ClickTwice(active: Option<TicketStatus>, card: TicketStatus)
    ensures active != Some(card) ==> CardClick(CardClick(active, card), card) == None
    ensures CardClick(CardClick(None, card), card) == None
  {
  }
}
