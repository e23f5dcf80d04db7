// Whose an issued ticket is: the order it names, that order's user, the bucket
// that was reserved, and a reference nobody else has.
module TicketOwners {
  import opened Totals
  import opened Store
  import opened Wrappers
  import Checkout
  import Issuance

  /******* One issuance *******/

  predicate NewTo(tickets: seq<Ticket>, ref: TicketRef) {
    forall j :: 0 <= j < |tickets| ==>
      tickets[j].ref.ticketSerial != ref.ticketSerial && tickets[j].ref.publicReference != ref.publicReference
  }

  // No two of them have a serial or a public reference in common.
  predicate PairwiseDistinct(refs: seq<TicketRef>) {
    forall i, j :: 0 <= i < j < |refs| ==>
      refs[i].ticketSerial != refs[j].ticketSerial && refs[i].publicReference != refs[j].publicReference
  }

  lemma FreshIffNew(tickets: seq<Ticket>, refs: seq<TicketRef>)
    ensures FreshRefs(tickets, refs)
       <==> PairwiseDistinct(refs) && forall i :: 0 <= i < |refs| ==> NewTo(tickets, refs[i])
  {
    if FreshRefs(tickets, refs) {
      forall i | 0 <= i < |refs| ensures NewTo(tickets, refs[i]) {
        assert forall j :: 0 <= j < |tickets| ==> !Collides(tickets[j], refs[i]);
      }
    }
  }

  // A paid order with a reservation that is still HELD.
  predicate Issuable(s: Tables, orderId: nat, rid: nat) {
    && orderId < |s.orders| && rid < |s.reservations|
    && s.orders[orderId].status == Paid && s.orders[orderId].reservationId == Some(rid)
    && s.reservations[rid].status == Held
  }

  lemma LoadsIssuable(s: Tables, orderId: nat)
    ensures forall rid: nat :: LoadValidated(s, orderId) == Ok(rid) <==> Issuable(s, orderId, rid)
  {
  }

  // Which requests issue.
  lemma IssuesIff(s: Tables, orderId: nat, refs: seq<TicketRef>, rid: nat)
    ensures Issue(s, orderId, refs).1 == Ok(rid)
       <==> Issuable(s, orderId, rid) && s.reservations[rid].quantity == |refs|
            && s.reservations[rid].key in s.buckets
            && PairwiseDistinct(refs) && forall i :: 0 <= i < |refs| ==> NewTo(s.tickets, refs[i])
  {
    LoadsIssuable(s, orderId);
    FreshIffNew(s.tickets, refs);
  }

  // And why the others do not; nothing is written then.
  lemma IssueRefusal(s: Tables, orderId: nat, refs: seq<TicketRef>)
    requires Issue(s, orderId, refs).1.Err?
    ensures var (s', out) := Issue(s, orderId, refs);
            && s' == s
            && out.error ==
               if orderId >= |s.orders| then NotFound
               else
                 var o := s.orders[orderId];
                 if o.status != Paid || o.reservationId.None? then InvalidState
                 else if o.reservationId.value >= |s.reservations| then NotFound
                 else
                   var r := s.reservations[o.reservationId.value];
                   if r.status != Held || r.quantity != |refs| then InvalidState
                   else if r.key !in s.buckets then NotFound
                   else UniqueViolation
  {
  }

  // What an issuance adds, and whose it is.
  lemma IssuedTicketsAreTheBuyers(s: Tables, orderId: nat, refs: seq<TicketRef>)
    requires Issue(s, orderId, refs).1.Ok?
    ensures var (s', out) := Issue(s, orderId, refs);
            && Issuable(s, orderId, out.value)
            && |s'.tickets| == |s.tickets| + s.reservations[out.value].quantity
            && (forall i :: 0 <= i < |s.tickets| ==> s'.tickets[i] == s.tickets[i])
            && (forall i :: |s.tickets| <= i < |s'.tickets| ==>
                  && s'.tickets[i].orderId == orderId
                  && s'.tickets[i].ownerUserId == s.orders[orderId].userId
                  && s'.tickets[i].key.eventId == s.orders[orderId].eventId
                  && s'.tickets[i].key.ticketTypeId == s.reservations[out.value].key.ticketTypeId
                  && s'.tickets[i].ref == refs[i - |s.tickets|])
  {
  }

  // What it overwrites: one reservation, one order, one bucket.
  lemma IssueWritesOneOfEach(s: Tables, orderId: nat, refs: seq<TicketRef>)
    requires Issue(s, orderId, refs).1.Ok?
    ensures var (s', out) := Issue(s, orderId, refs); var rid := out.value;
            && s'.reservations == s.reservations[rid := s.reservations[rid].(status := Consumed)]
            && s'.orders == s.orders[orderId := s.orders[orderId].(status := Fulfilled)]
            && s'.buckets.Keys == s.buckets.Keys
            && (forall k :: k in s.buckets ==> s'.buckets[k].capacityTotal == s.buckets[k].capacityTotal)
            && s'.audits == s.audits + [TicketsIssued(orderId, rid, s.reservations[rid].quantity)]
            && s'.payments == s.payments && s'.ledger == s.ledger && s'.idempotency == s.idempotency
  {
  }

  /******* Every run *******/

  ghost predicate OwnedBy(s: Tables, t: Ticket) {
    && t.orderId < |s.orders|
    && var o := s.orders[t.orderId];
       && t.ownerUserId == o.userId
       && o.reservationId.Some? && o.reservationId.value < |s.reservations|
       && t.key == s.reservations[o.reservationId.value].key
       && t.ownerUserId == s.reservations[o.reservationId.value].ownerUserId
  }

  ghost predicate AllOwned(s: Tables) { forall i :: 0 <= i < |s.tickets| ==> OwnedBy(s, s.tickets[i]) }

  ghost predicate RefsDistinct(tickets: seq<Ticket>) {
    forall i, j :: 0 <= i < j < |tickets| ==>
      && tickets[i].ref.ticketSerial != tickets[j].ref.ticketSerial
      && tickets[i].ref.publicReference != tickets[j].ref.publicReference
  }

  function TicketsOf(orderId: nat): Ticket -> int {
    (t: Ticket) => if t.orderId == orderId then 1 else 0
  }

  // An order has no tickets, or all that its reservation holds.
  ghost predicate AllOrNone(s: Tables, orderId: nat)
    requires orderId < |s.orders|
  {
    var n := Total(s.tickets, TicketsOf(orderId));
    n == 0
    || (&& s.orders[orderId].reservationId.Some?
        && var rid := s.orders[orderId].reservationId.value;
           rid < |s.reservations| && n == s.reservations[rid].quantity && s.reservations[rid].status != Held)
  }

  ghost predicate Inv(s: Tables) {
    && Issuance.Core(s) && AllOwned(s) && RefsDistinct(s.tickets)
    && forall o: nat :: o < |s.orders| ==> AllOrNone(s, o)
  }

  // Rows that tickets lean on stay what they are, up to their status.
  ghost predicate KeepsOwners(s: Tables, s': Tables) {
    && Checkout.KeepsOrders(s, s')
    && Issuance.OnlyLeaves(s.reservations, s'.reservations)
  }

  lemma OtherStepsKeepOwners(s: Tables, step: Step)
    requires !step.StepIssue?
    ensures KeepsOwners(s, Next(s, step)) && Next(s, step).tickets == s.tickets
  {
    Issuance.QuietStep(s, step);
    if step.StepCreateOrder? {
      Checkout.CreateKeepsOrders(s, step.appNow, step.actor, step.req, step.checkoutAllowed);
    } else {
      Checkout.OtherStepsKeepOrders(s, step);
    }
  }

  lemma OwnedStays(s: Tables, s': Tables, t: Ticket)
    requires KeepsOwners(s, s') && OwnedBy(s, t)
    ensures OwnedBy(s', t)
  {
  }

  lemma NobodysTickets(s: Tables, o: nat)
    requires AllOwned(s) && o >= |s.orders|
    ensures Total(s.tickets, TicketsOf(o)) == 0
  {
    forall i | 0 <= i < |s.tickets| ensures TicketsOf(o)(s.tickets[i]) == 0 {
      assert OwnedBy(s, s.tickets[i]);
    }
    Issuance.ZeroTotal(s.tickets, TicketsOf(o));
  }

  lemma OtherStepsKeepInv(s: Tables, step: Step)
    requires Inv(s) && !step.StepIssue?
    ensures Inv(Next(s, step))
  {
    var s' := Next(s, step);
    OtherStepsKeepOwners(s, step);
    Issuance.StepKeepsCore(s, step);
    forall i | 0 <= i < |s'.tickets| ensures OwnedBy(s', s'.tickets[i]) {
      OwnedStays(s, s', s.tickets[i]);
    }
    forall o: nat | o < |s'.orders| ensures AllOrNone(s', o) {
      if o < |s.orders| { assert AllOrNone(s, o); } else { NobodysTickets(s, o); }
    }
  }

  lemma IssueKeepsOwned(s: Tables, orderId: nat, refs: seq<TicketRef>)
    requires Issuance.Linked(s) && AllOwned(s) && Issue(s, orderId, refs).1.Ok?
    ensures AllOwned(Issue(s, orderId, refs).0)
  {
    var (s', out) := Issue(s, orderId, refs);
    IssuedTicketsAreTheBuyers(s, orderId, refs);
    IssueWritesOneOfEach(s, orderId, refs);
    forall i | 0 <= i < |s'.tickets| ensures OwnedBy(s', s'.tickets[i]) {
      if i < |s.tickets| { assert OwnedBy(s, s.tickets[i]); }
    }
  }

  lemma IssueKeepsDistinct(s: Tables, orderId: nat, refs: seq<TicketRef>)
    requires RefsDistinct(s.tickets) && Issue(s, orderId, refs).1.Ok?
    ensures RefsDistinct(Issue(s, orderId, refs).0.tickets)
  {
    var (s', out) := Issue(s, orderId, refs);
    IssuedTicketsAreTheBuyers(s, orderId, refs);
    IssuesIff(s, orderId, refs, out.value);
    forall i, j | 0 <= i < j < |s'.tickets|
      ensures s'.tickets[i].ref.ticketSerial != s'.tickets[j].ref.ticketSerial
              && s'.tickets[i].ref.publicReference != s'.tickets[j].ref.publicReference
    {
      if j >= |s.tickets| && i < |s.tickets| { assert NewTo(s.tickets, refs[j - |s.tickets|]); }
    }
  }

  lemma {:induction false} AllOfOrder(tickets: seq<Ticket>, orderId: nat, o: nat)
    requires forall i :: 0 <= i < |tickets| ==> tickets[i].orderId == orderId
    ensures Total(tickets, TicketsOf(o)) == if o == orderId then |tickets| else 0
  {
    if |tickets| != 0 { AllOfOrder(tickets[..|tickets| - 1], orderId, o); }
  }

  lemma IssueCountsOne(s: Tables, orderId: nat, refs: seq<TicketRef>, o: nat)
    requires Issue(s, orderId, refs).1.Ok?
    ensures var (s', out) := Issue(s, orderId, refs);
            Total(s'.tickets, TicketsOf(o))
            == Total(s.tickets, TicketsOf(o)) + if o == orderId then s.reservations[out.value].quantity else 0
  {
    var s' := Issue(s, orderId, refs).0;
    IssuedTicketsAreTheBuyers(s, orderId, refs);
    var added := s'.tickets[|s.tickets|..];
    assert s'.tickets == s.tickets + added;
    TotalConcat(s.tickets, added, TicketsOf(o));
    AllOfOrder(added, orderId, o);
  }

  lemma IssueKeepsAllOrNone(s: Tables, orderId: nat, refs: seq<TicketRef>)
    requires Issue(s, orderId, refs).1.Ok?
    requires forall o: nat :: o < |s.orders| ==> AllOrNone(s, o)
    ensures var s' := Issue(s, orderId, refs).0; forall o: nat :: o < |s'.orders| ==> AllOrNone(s', o)
  {
    var (s', out) := Issue(s, orderId, refs);
    IssueWritesOneOfEach(s, orderId, refs);
    IssuesIff(s, orderId, refs, out.value);
    forall o: nat | o < |s'.orders| ensures AllOrNone(s', o) {
      assert AllOrNone(s, o);
      IssueCountsOne(s, orderId, refs, o);
    }
  }

  lemma IssueKeepsInv(s: Tables, orderId: nat, refs: seq<TicketRef>)
    requires Inv(s)
    ensures Inv(Issue(s, orderId, refs).0)
  {
    Issuance.IssueKeepsCore(s, orderId, refs);
    if Issue(s, orderId, refs).1.Ok? {
      IssueKeepsOwned(s, orderId, refs);
      IssueKeepsDistinct(s, orderId, refs);
      IssueKeepsAllOrNone(s, orderId, refs);
    } else {
      IssueRefusal(s, orderId, refs);
    }
  }

  // None of it looks at the clock.
  lemma SameRowsInv(s: Tables, now: int)
    requires Inv(s)
    ensures Inv(AtClock(s, now))
  {
    var s' := AtClock(s, now);
    forall i | 0 <= i < |s'.tickets| ensures OwnedBy(s', s'.tickets[i]) { assert OwnedBy(s, s.tickets[i]); }
    forall o: nat | o < |s'.orders| ensures AllOrNone(s', o) { assert AllOrNone(s, o); }
  }

  lemma StepKeepsInv(s: Tables, step: Step)
    requires Inv(s)
    ensures Inv(Next(s, step))
  {
    if step.StepIssue? {
      SameRowsInv(s, s.now - step.lag);
      IssueKeepsInv(Behind(s, step.lag), step.orderId, step.refs);
      SameRowsInv(Issue(Behind(s, step.lag), step.orderId, step.refs).0, s.now);
    } else {
      OtherStepsKeepInv(s, step);
    }
  }

  // In every run, whatever interleaves: each ticket names an existing order and
  // belongs to the user of that order, who made the reservation it was issued from;
  // serials and public references are unique; an order has either no tickets or as
  // many as its reservation holds.
  lemma {:induction false} TicketsBelongToBuyers(s: Tables, steps: seq<Step>)
    requires Initial(s)
    ensures var t := Run(s, steps);
            && Inv(t)
            && (forall i :: 0 <= i < |t.tickets| ==>
                  && t.tickets[i].orderId < |t.orders|
                  && t.tickets[i].ownerUserId == t.orders[t.tickets[i].orderId].userId)
  {
    if |steps| == 0 {
      Issuance.NeverIssuedTwice(s, []);
    } else {
      var front := steps[..|steps| - 1];
      TicketsBelongToBuyers(s, front);
      StepKeepsInv(Run(s, front), steps[|steps| - 1]);
    }
    var t := Run(s, steps);
    forall i | 0 <= i < |t.tickets|
      ensures t.tickets[i].orderId < |t.orders| && t.tickets[i].ownerUserId == t.orders[t.tickets[i].orderId].userId
    {
      assert OwnedBy(t, t.tickets[i]);
    }
  }

  lemma StepKeepsTickets(s: Tables, step: Step)
    ensures |s.tickets| <= |Next(s, step).tickets| && Next(s, step).tickets[..|s.tickets|] == s.tickets
  {
    if step.StepIssue? {
      var b := Behind(s, step.lag);
      if Issue(b, step.orderId, step.refs).1.Ok? {
        IssuedTicketsAreTheBuyers(b, step.orderId, step.refs);
      } else {
        IssueRefusal(b, step.orderId, step.refs);
      }
    } else {
      OtherStepsKeepOwners(s, step);
    }
  }

  // No run takes a ticket away or hands it to somebody else.
  lemma {:induction false} TicketsNeverChange(s: Tables, steps: seq<Step>)
    ensures |s.tickets| <= |Run(s, steps).tickets| && Run(s, steps).tickets[..|s.tickets|] == s.tickets
  {
    if |steps| != 0 {
      var m, t := Run(s, steps[..|steps| - 1]), Run(s, steps);
      TicketsNeverChange(s, steps[..|steps| - 1]);
      StepKeepsTickets(m, steps[|steps| - 1]);
      assert t.tickets[..|s.tickets|] == m.tickets[..|s.tickets|];
    }
  }
}
