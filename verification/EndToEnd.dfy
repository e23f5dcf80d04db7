// From an accepted scan back to the payment that bought the ticket.
module EndToEnd {
  import opened Totals
  import opened Wrappers
  import opened Admissions
  import Payments
  import PaymentProofs

  // A ticket of a payment belongs to its buyer and event; no two share an intent.
  ghost predicate TicketsOk(tickets: seq<PaidTicket>, intents: seq<Payments.Intent>) {
    && (forall i :: 0 <= i < |tickets| && tickets[i].intentId.Some? ==>
          && tickets[i].intentId.value < |intents|
          && tickets[i].ownerUserId == intents[tickets[i].intentId.value].buyerUserId
          && tickets[i].eventId == intents[tickets[i].intentId.value].eventId)
    && (forall i, j :: 0 <= i < j < |tickets| && tickets[i].intentId.Some? ==>
          tickets[i].intentId != tickets[j].intentId)
    && (forall i :: 0 <= i < |tickets| ==> (tickets[i].tokenHash.Some? <==> tickets[i].intentId.Some?))
  }

  predicate Accepted(a: ScanAudit) { a.rejection.None? }

  function AcceptsOf(id: nat): ScanAudit -> int {
    (a: ScanAudit) => if Accepted(a) && a.ticketId == Some(id) then 1 else 0
  }

  function AuditsOf(sid: nat): ScanAudit -> int {
    (a: ScanAudit) => if a.scanId == sid then 1 else 0
  }

  // An accepted scan names a used ticket of a payment; a ticket is accepted once
  // if it is used and never otherwise; a scan has one audit once it completed.
  ghost predicate AcceptsOk(d: Door) {
    && (forall a :: 0 <= a < |d.audits| && Accepted(d.audits[a]) ==>
          d.audits[a].ticketId.Some? && d.audits[a].ticketId.value < |d.tickets|
          && d.tickets[d.audits[a].ticketId.value].intentId.Some?)
    && (forall id: nat ::
          Total(d.audits, AcceptsOf(id)) == if id < |d.tickets| && d.tickets[id].status == Used then 1 else 0)
    && (forall sid: nat :: Total(d.audits, AuditsOf(sid)) == if sid in d.completed then 1 else 0)
    && (forall sid :: sid in d.scans ==> sid !in d.completed)
  }

  ghost predicate Inv(w: World) {
    && PaymentProofs.Inv(w.pay)
    && TicketsOk(w.door.tickets, w.pay.db.intents)
    && AcceptsOk(w.door)
  }

  lemma CallStepEvolves(s: Payments.Pay, step: Payments.PayStep)
    requires step.DoRetry? || step.DoProviderOk? || step.DoPersistFailed? || step.DoRecordFailure?
    ensures PaymentProofs.Evolves(s.db.intents, Payments.Next(s, step).db.intents)
  {
  }

  lemma PayStepEvolves(s: Payments.Pay, step: Payments.PayStep)
    requires PaymentProofs.Inv(s)
    ensures PaymentProofs.Evolves(s.db.intents, Payments.Next(s, step).db.intents)
  {
    if step.DoConclude? && step.hid in s.deliveries && s.deliveries[step.hid].Concluding? {
      var d := s.deliveries[step.hid];
      assert PaymentProofs.DeliveryOk(s.db, d);
      PaymentProofs.ConcludeEffect(s.db, d.eventId, d.found, d.action, step.at);
    } else if step.DoInitiate? {
      PaymentProofs.BeginInitiationEffect(s.db, step.order);
    } else if step.DoRetry? || step.DoProviderOk? || step.DoPersistFailed? || step.DoRecordFailure? {
      CallStepEvolves(s, step);
    } else {
      assert Payments.Next(s, step).db.intents == s.db.intents;
    }
  }

  lemma IssueEffect(w: World, intentId: nat, tokenHash: nat, ok: bool, endsAt: int)
    ensures var d, d' := w.door, Next(w, DoIssue(intentId, tokenHash, ok, endsAt)).door;
            && d'.audits == d.audits && d'.scans == d.scans && d'.completed == d.completed
            && (d'.tickets == d.tickets
                || (&& intentId < |w.pay.db.intents|
                    && var i := w.pay.db.intents[intentId];
                       && d'.tickets == d.tickets + [PaidTicket(Some(intentId), i.buyerUserId, i.eventId,
                                                                Some(i.organizerId), Issued, Some(tokenHash), None,
                                                                Some(endsAt))]
                       && FindTicket(d.tickets, intentId, i.buyerUserId, i.eventId).None?))
  {
  }

  lemma TicketAppended(tickets: seq<PaidTicket>, intents: seq<Payments.Intent>, t: PaidTicket, intentId: nat)
    requires TicketsOk(tickets, intents) && intentId < |intents| && t.intentId == Some(intentId) && t.tokenHash.Some?
    requires t.ownerUserId == intents[intentId].buyerUserId && t.eventId == intents[intentId].eventId
    requires FindTicket(tickets, intentId, t.ownerUserId, t.eventId).None?
    ensures TicketsOk(tickets + [t], intents)
  {
  }

  lemma AcceptsKept(d: Door, d': Door)
    requires AcceptsOk(d) && d'.audits == d.audits && d'.scans == d.scans && d'.completed == d.completed
    requires |d'.tickets| == |d.tickets| + 1 && d'.tickets[..|d.tickets|] == d.tickets
    requires d'.tickets[|d.tickets|].status == Issued
    ensures AcceptsOk(d')
  {
    forall i | 0 <= i < |d.tickets| ensures d'.tickets[i] == d.tickets[i] {
      assert d'.tickets[..|d.tickets|][i] == d.tickets[i];
    }
  }

  lemma IssueKeepsInv(w: World, intentId: nat, tokenHash: nat, ok: bool, endsAt: int)
    requires Inv(w)
    ensures Inv(Next(w, DoIssue(intentId, tokenHash, ok, endsAt)))
  {
    IssueEffect(w, intentId, tokenHash, ok, endsAt);
    var d, d' := w.door, Next(w, DoIssue(intentId, tokenHash, ok, endsAt)).door;
    if d'.tickets != d.tickets {
      TicketAppended(d.tickets, w.pay.db.intents, d'.tickets[|d.tickets|], intentId);
      AcceptsKept(d, d');
    }
  }

  // One audit more; if it accepts, exactly its ticket went from ISSUED to USED.
  ghost predicate OneAuditMore(tickets: seq<PaidTicket>, audits: seq<ScanAudit>, tickets': seq<PaidTicket>,
                               audits': seq<ScanAudit>, sid: nat)
  {
    && |tickets'| == |tickets| && |audits'| == |audits| + 1 && audits' == audits + [audits'[|audits|]]
    && var a := audits'[|audits|];
       a.scanId == sid
       && if Accepted(a)
          then a.ticketId.Some? && a.ticketId.value < |tickets| && tickets[a.ticketId.value].status == Issued
               && tickets[a.ticketId.value].tokenHash.Some?
               && tickets' == tickets[a.ticketId.value := tickets[a.ticketId.value].(
                                        status := Used, usedAt := tickets'[a.ticketId.value].usedAt)]
          else tickets' == tickets
  }

  lemma FinishEffect(tickets: seq<PaidTicket>, audits: seq<ScanAudit>, sid: nat, scan: Scan, facts: EventFacts)
    ensures var (tickets', audits') := FinishScan(tickets, audits, sid, scan, facts);
            OneAuditMore(tickets, audits, tickets', audits', sid)
  {
  }

  lemma FinishKeepsAccepts(d: Door, d': Door, sid: nat)
    requires AcceptsOk(d) && sid in d.scans
    requires forall i :: 0 <= i < |d.tickets| ==> (d.tickets[i].tokenHash.Some? <==> d.tickets[i].intentId.Some?)
    requires OneAuditMore(d.tickets, d.audits, d'.tickets, d'.audits, sid)
    requires d'.scans == d.scans - {sid} && d'.completed == d.completed + {sid}
    ensures AcceptsOk(d')
  {
    var a := d'.audits[|d.audits|];
    forall id: nat
      ensures Total(d'.audits, AcceptsOf(id)) == if id < |d'.tickets| && d'.tickets[id].status == Used then 1 else 0
    {
      TotalAppend(d.audits, a, AcceptsOf(id));
    }
    forall s: nat ensures Total(d'.audits, AuditsOf(s)) == if s in d'.completed then 1 else 0 {
      TotalAppend(d.audits, a, AuditsOf(s));
    }
  }

  lemma FinishKeepsInv(w: World, sid: nat, facts: EventFacts)
    requires Inv(w)
    ensures Inv(Next(w, DoFinish(sid, facts)))
  {
    if sid in w.door.scans {
      var w' := Next(w, DoFinish(sid, facts));
      FinishEffect(w.door.tickets, w.door.audits, sid, w.door.scans[sid], facts);
      FinishKeepsAccepts(w.door, w'.door, sid);
    }
  }

  lemma StepKeepsInv(w: World, step: Step)
    requires Inv(w)
    ensures Inv(Next(w, step))
  {
    match step
    case OnPayments(s) =>
      PaymentProofs.StepKeepsInv(w.pay, s);
      PayStepEvolves(w.pay, s);
    case DoIssue(intentId, tokenHash, ok, endsAt) => IssueKeepsInv(w, intentId, tokenHash, ok, endsAt);
    case DoFinish(sid, facts) => FinishKeepsInv(w, sid, facts);
    case DoOrderTicket(owner, eventId) =>
    case DoPreflight(sid, input, facts) =>
  }

  lemma {:induction false} RunKeepsInv(steps: seq<Step>)
    ensures Inv(Run(OPENING, steps))
  {
    if |steps| == 0 {
      PaymentProofs.RunKeepsInv(Payments.NO_PAYMENTS, []);
    } else {
      RunKeepsInv(steps[..|steps| - 1]);
      StepKeepsInv(Run(OPENING, steps[..|steps| - 1]), steps[|steps| - 1]);
    }
  }

  /******* Issued only while verified *******/

  // Step k of the run created ticket t, from an intent VERIFIED at that moment.
  ghost predicate IssuedWhileVerified(steps: seq<Step>, k: nat, t: nat, intentId: nat) {
    && k < |steps|
    && steps[k].DoIssue? && steps[k].intentId == intentId
    && |Run(OPENING, steps[..k]).door.tickets| == t
    && intentId < |Run(OPENING, steps[..k]).pay.db.intents|
    && Run(OPENING, steps[..k]).pay.db.intents[intentId].status == Payments.Verified
  }

  lemma StepTickets(w: World, step: Step)
    ensures |w.door.tickets| <= |Next(w, step).door.tickets| <= |w.door.tickets| + 1
    ensures forall t :: 0 <= t < |w.door.tickets| ==>
              Next(w, step).door.tickets[t].intentId == w.door.tickets[t].intentId
    ensures |Next(w, step).door.tickets| > |w.door.tickets| ==>
              var t := Next(w, step).door.tickets[|w.door.tickets|];
              t.intentId.Some? ==>
                && step.DoIssue? && t.intentId == Some(step.intentId)
                && step.intentId < |w.pay.db.intents|
                && w.pay.db.intents[step.intentId].status == Payments.Verified
  {
  }

  lemma IssuedInPrefix(steps: seq<Step>, n: nat, k: nat, t: nat, intentId: nat)
    requires n <= |steps| && IssuedWhileVerified(steps[..n], k, t, intentId)
    ensures IssuedWhileVerified(steps, k, t, intentId)
  {
    assert steps[..n][..k] == steps[..k];
  }

  lemma {:induction false} TicketWasVerified(steps: seq<Step>, t: nat) returns (k: nat)
    requires t < |Run(OPENING, steps).door.tickets| && Run(OPENING, steps).door.tickets[t].intentId.Some?
    ensures IssuedWhileVerified(steps, k, t, Run(OPENING, steps).door.tickets[t].intentId.value)
  {
    if |steps| == 0 {
      assert false;
    } else {
      var n := |steps| - 1;
      var w := Run(OPENING, steps[..n]);
      StepTickets(w, steps[n]);
      if t < |w.door.tickets| {
        k := TicketWasVerified(steps[..n], t);
        IssuedInPrefix(steps, n, k, t, w.door.tickets[t].intentId.value);
      } else {
        k := n;
      }
    }
  }

  /******* The main result *******/

  lemma {:induction false} TwoAccepts(audits: seq<ScanAudit>, a: nat, b: nat, id: nat)
    requires a < b < |audits|
    requires Accepted(audits[a]) && Accepted(audits[b]) && audits[a].ticketId == audits[b].ticketId == Some(id)
    ensures Total(audits, AcceptsOf(id)) >= 2
  {
    var n := |audits| - 1;
    if b < n {
      TwoAccepts(audits[..n], a, b, id);
    } else {
      assert audits[..n][a] == audits[a];
      TotalAtLeast(audits[..n], a, AcceptsOf(id));
    }
  }

  // The payment behind an accepted scan.
  ghost function IntentOf(d: Door, a: nat): Option<nat> {
    if a < |d.audits| && d.audits[a].ticketId.Some? && d.audits[a].ticketId.value < |d.tickets|
    then d.tickets[d.audits[a].ticketId.value].intentId
    else None
  }

  lemma AcceptsInjective(w: World, a: nat, b: nat)
    requires Inv(w) && a < |w.door.audits| && b < |w.door.audits|
    requires Accepted(w.door.audits[a]) && Accepted(w.door.audits[b])
    ensures IntentOf(w.door, a).Some? && (IntentOf(w.door, a) == IntentOf(w.door, b) ==> a == b)
  {
    var d := w.door;
    var id := d.audits[a].ticketId.value;
    assert Total(d.audits, AcceptsOf(id)) <= 1;
    if IntentOf(d, a) == IntentOf(d, b) && a != b {
      assert d.audits[b].ticketId.value == id;
      TwoAccepts(d.audits, if a < b then a else b, if a < b then b else a, id);
      assert false;
    }
  }

  // In every run, with scans split into preflight and use: each accepted scan
  // leads to a payment intent, different scans to different intents, and each
  // completed scan has exactly one audit.
  lemma AcceptedScansAreInjective(steps: seq<Step>, a: nat, b: nat)
    requires a < |Run(OPENING, steps).door.audits| && Accepted(Run(OPENING, steps).door.audits[a])
    requires b < |Run(OPENING, steps).door.audits| && Accepted(Run(OPENING, steps).door.audits[b])
    ensures var d := Run(OPENING, steps).door;
            && IntentOf(d, a).Some?
            && (IntentOf(d, a) == IntentOf(d, b) ==> a == b)
            && forall sid: nat :: Total(d.audits, AuditsOf(sid)) == if sid in d.completed then 1 else 0
  {
    RunKeepsInv(steps);
    AcceptsInjective(Run(OPENING, steps), a, b);
  }

  // And that intent was VERIFIED at the step that issued the ticket.
  lemma AcceptedScanWasPaid(steps: seq<Step>, a: nat) returns (k: nat)
    requires a < |Run(OPENING, steps).door.audits| && Accepted(Run(OPENING, steps).door.audits[a])
    ensures var d := Run(OPENING, steps).door;
            && IntentOf(d, a).Some?
            && IssuedWhileVerified(steps, k, d.audits[a].ticketId.value, IntentOf(d, a).value)
  {
    AcceptedScansAreInjective(steps, a, a);
    k := TicketWasVerified(steps, Run(OPENING, steps).door.audits[a].ticketId.value);
  }
}
