// Who is let in, why others are not, and which payments become tickets.
module ScanOutcomes {
  import opened Wrappers
  import opened Admissions
  import Payments

  /******* Scans *******/

  // The ticket exists and this is its token; its organizer is the event's, if it has
  // one; the scanner owns that organizer; the event is the one asked for, if one is
  // asked for; and the ticket is ISSUED for a published event, with neither its own
  // expiry nor the event's end in the past.
  predicate Admissible(tickets: seq<PaidTicket>, input: ScanInput, facts: EventFacts) {
    && input.ticketId < |tickets|
    && var t := tickets[input.ticketId];
       && t.tokenHash == Some(input.tokenHash)
       && (t.organizerId.Some? ==> t.organizerId.value == facts.organizerId)
       && facts.ownerUserId == input.scannedByUserId
       && (input.eventId.Some? ==> input.eventId.value == t.eventId)
       && t.status == Issued && facts.published
       && (t.expiresAt.Some? ==> input.scannedAt <= t.expiresAt.value)
       && input.scannedAt <= facts.endsAt
  }

  // Why the state of a ticket keeps it out.
  ghost predicate StateReason(t: PaidTicket, facts: EventFacts, at: int, reason: Reason) {
    var lapsed := t.expiresAt.Some? && t.expiresAt.value < at;
    && (reason == TicketAlreadyUsed <==> t.status == Used)
    && (reason == TicketVoided <==> t.status == Voided || t.status == Invalidated || t.status == Refunded
                                    || t.status == Blocked)
    && (reason == TicketNotIssued <==> t.status == Active || t.status == Exited)
    && (reason == TicketExpiredReason <==> t.status == TicketExpired
                                           || (t.status == Issued && facts.published && lapsed))
    && (reason == EventNotActive <==> t.status == Issued
                                      && (!facts.published || (!lapsed && facts.endsAt < at)))
  }

  // Why a scan is refused: the first check that fails.
  ghost predicate ScanReason(tickets: seq<PaidTicket>, input: ScanInput, facts: EventFacts, reason: Reason) {
    && (reason == TicketNotFound <==> input.ticketId >= |tickets|)
    && (input.ticketId < |tickets| ==>
          var t := tickets[input.ticketId];
          var known := t.tokenHash == Some(input.tokenHash);
          var ours := t.organizerId.None? || t.organizerId.value == facts.organizerId;
          var staff := facts.ownerUserId == input.scannedByUserId;
          var here := input.eventId.None? || input.eventId.value == t.eventId;
          && (reason == InvalidToken <==> !known)
          && (reason == OrganizerMismatch <==> known && !ours)
          && (reason == StaffNotAuthorized <==> known && ours && !staff)
          && (reason == EventMismatch <==> known && ours && staff && !here)
          && (known && ours && staff && here ==> StateReason(t, facts, input.scannedAt, reason)))
  }

  lemma PreflightTells(tickets: seq<PaidTicket>, input: ScanInput, facts: EventFacts)
    ensures var r := Preflight(tickets, input, facts);
            && (r.None? <==> Admissible(tickets, input, facts))
            && (r.Some? ==> ScanReason(tickets, input, facts, r.value))
  {
  }

  // The steps of one scan; every other step is somebody else's.
  predicate StepOf(step: Step, sid: nat) {
    (step.DoPreflight? && step.sid == sid) || (step.DoFinish? && step.sid == sid)
  }

  lemma {:induction false} OthersLeaveScan(w: World, steps: seq<Step>, sid: nat)
    requires sid in w.door.scans
    requires forall i :: 0 <= i < |steps| ==> !StepOf(steps[i], sid)
    ensures sid in Run(w, steps).door.scans && Run(w, steps).door.scans[sid] == w.door.scans[sid]
  {
    if |steps| != 0 { OthersLeaveScan(w, steps[..|steps| - 1], sid); }
  }

  // What the preflight left for the second half to find.
  ghost predicate Remembers(tickets: seq<PaidTicket>, input: ScanInput, facts: EventFacts, scan: Scan) {
    if Admissible(tickets, input, facts)
    then scan == Using(input.ticketId, input.tokenHash, input.scannedAt)
    else scan.Refusing? && ScanReason(tickets, input, facts, scan.reason)
         && scan.target == if input.ticketId < |tickets| then Some(input.ticketId) else None
  }

  lemma PreflightRemembers(w: World, sid: nat, input: ScanInput, facts: EventFacts)
    requires sid !in w.door.scans && sid !in w.door.completed
    ensures var w' := Next(w, DoPreflight(sid, input, facts));
            && w' == w.(door := w.door.(scans := w'.door.scans)) && sid in w'.door.scans
            && w'.door.scans == w.door.scans[sid := w'.door.scans[sid]]
            && Remembers(w.door.tickets, input, facts, w'.door.scans[sid])
  {
    PreflightTells(w.door.tickets, input, facts);
  }

  // The ticket is still there to be used.
  predicate StillUsable(tickets: seq<PaidTicket>, id: nat, tokenHash: nat) {
    id < |tickets| && tickets[id].status == Issued && tickets[id].tokenHash == Some(tokenHash)
  }

  // What one scan that reached its second half adds.
  ghost predicate Uses(d: Door, d': Door, sid: nat, id: nat, at: int) {
    && id < |d.tickets|
    && d'.tickets == d.tickets[id := d.tickets[id].(status := Used, usedAt := Some(at))]
    && d'.audits == d.audits + [ScanAudit(sid, Some(id), None)]
  }

  ghost predicate Refuses(d: Door, d': Door, sid: nat, target: Option<nat>, reason: Reason) {
    d'.tickets == d.tickets && d'.audits == d.audits + [ScanAudit(sid, target, Some(reason))]
  }

  // Why a ticket that passed the preflight cannot be used any more.
  ghost predicate LostReason(t: PaidTicket, facts: EventFacts, at: int, reason: Reason) {
    if t.status == Issued && facts.published && (t.expiresAt.Some? ==> at <= t.expiresAt.value) && at <= facts.endsAt
    then reason == TokenReplayDetected
    else StateReason(t, facts, at, reason)
  }

  lemma FinishTells(w: World, sid: nat, facts: EventFacts)
    requires sid in w.door.scans
    ensures var w' := Next(w, DoFinish(sid, facts)); var d, d' := w.door, w'.door;
            && w'.pay == w.pay && d'.issuance == d.issuance
            && d'.scans == d.scans - {sid} && d'.completed == d.completed + {sid}
            && match d.scans[sid]
               case Refusing(target, reason) => Refuses(d, d', sid, target, reason)
               case Using(id, tokenHash, at) =>
                 if StillUsable(d.tickets, id, tokenHash) then Uses(d, d', sid, id, at)
                 else if id >= |d.tickets| then Refuses(d, d', sid, None, TicketNotFound)
                 else exists reason :: LostReason(d.tickets[id], facts, at, reason)
                                       && Refuses(d, d', sid, Some(id), reason)
  {
    match w.door.scans[sid]
    case Refusing(_, _) =>
    case Using(id, tokenHash, at) =>
      if !StillUsable(w.door.tickets, id, tokenHash) && id < |w.door.tickets| {
        var state := ClassifyState(w.door.tickets[id], facts, at);
        var reason := if state.Some? then state.value else TokenReplayDetected;
        assert LostReason(w.door.tickets[id], facts, at, reason);
      }
  }

  // A scan, with any requests of others between its two halves, lets the ticket in
  // if and only if it was admissible at the first and is unused, with the same
  // token, at the second. The event is looked at only once: what it has become in
  // between does not matter. A refusal has the reason of the half that refused.
  lemma ScanAcceptsIff(
    w: World, sid: nat, input: ScanInput, facts: EventFacts, between: seq<Step>, later: EventFacts)
    requires sid !in w.door.scans && sid !in w.door.completed
    requires forall i :: 0 <= i < |between| ==> !StepOf(between[i], sid)
    ensures var t := Run(Next(w, DoPreflight(sid, input, facts)), between);
            var u := Next(t, DoFinish(sid, later)); var id := input.ticketId;
            if !Admissible(w.door.tickets, input, facts)
            then exists reason :: ScanReason(w.door.tickets, input, facts, reason)
                                  && Refuses(t.door, u.door, sid,
                                             if id < |w.door.tickets| then Some(id) else None, reason)
            else if StillUsable(t.door.tickets, id, input.tokenHash) then Uses(t.door, u.door, sid, id, input.scannedAt)
            else if id >= |t.door.tickets| then Refuses(t.door, u.door, sid, None, TicketNotFound)
            else exists reason :: LostReason(t.door.tickets[id], later, input.scannedAt, reason)
                                  && Refuses(t.door, u.door, sid, Some(id), reason)
  {
    PreflightRemembers(w, sid, input, facts);
    var p := Next(w, DoPreflight(sid, input, facts));
    OthersLeaveScan(p, between, sid);
    FinishTells(Run(p, between), sid, later);
  }

  /******* Tickets of payments *******/

  // This payment has its ticket already.
  predicate HasTicket(tickets: seq<PaidTicket>, i: Payments.Intent, intentId: nat) {
    exists k :: 0 <= k < |tickets| && tickets[k].intentId == Some(intentId)
                && tickets[k].ownerUserId == i.buyerUserId && tickets[k].eventId == i.eventId
  }

  lemma HasTicketIsFound(tickets: seq<PaidTicket>, i: Payments.Intent, intentId: nat)
    ensures HasTicket(tickets, i, intentId) <==> FindTicket(tickets, intentId, i.buyerUserId, i.eventId).Some?
  {
  }

  // A payment gets a ticket exactly when it is VERIFIED, its buyer, organizer and
  // event agree, and it has one already or the drawn token is nobody's.
  lemma PaymentIssuesIff(
    d: Door, intents: seq<Payments.Intent>, intentId: nat, tokenHash: nat, snapshotOk: bool, endsAt: int)
    ensures var (d', out) := IssueFromPayment(d, intents, intentId, tokenHash, snapshotOk, endsAt);
            && (out.Ok? <==> intentId < |intents| && intents[intentId].status == Payments.Verified && snapshotOk
                             && (HasTicket(d.tickets, intents[intentId], intentId)
                                 || forall k :: 0 <= k < |d.tickets| ==> d.tickets[k].tokenHash != Some(tokenHash)))
            && (out.Err? ==> out.error == if intentId >= |intents| then NotFound
                                          else if intents[intentId].status == Payments.Verified && snapshotOk
                                          then UniqueViolation
                                          else InvalidState)
  {
    if intentId < |intents| { HasTicketIsFound(d.tickets, intents[intentId], intentId); }
  }

  function Logged(d: Door, intentId: nat, kinds: seq<IssuanceKind>): (d': Door) {
    d.(issuance := d.issuance + seq(|kinds|, k requires 0 <= k < |kinds| => IssuanceAudit(intentId, kinds[k])))
  }

  // The one ticket belongs to the buyer, admits to the event until its end and is
  // ISSUED; asked again, the payment answers with the ticket it has.
  lemma PaymentIssueWrites(
    d: Door, intents: seq<Payments.Intent>, intentId: nat, tokenHash: nat, snapshotOk: bool, endsAt: int)
    requires intentId < |intents|
    ensures var (d', out) := IssueFromPayment(d, intents, intentId, tokenHash, snapshotOk, endsAt);
            var i := intents[intentId];
            if i.status != Payments.Verified then d' == Logged(d, intentId, [RejectedNotVerified])
            else if !snapshotOk then d' == Logged(d, intentId, [IssuanceFailed])
            else if out.Err? then d' == d
            else if HasTicket(d.tickets, i, intentId)
            then d' == Logged(d, intentId, [Requested, IdempotentReplay])
                 && out.value < |d.tickets| && d.tickets[out.value].intentId == Some(intentId)
                 && d.tickets[out.value].ownerUserId == i.buyerUserId
            else d' == Logged(d, intentId, [Requested, TicketIssued])
                         .(tickets := d.tickets + [PaidTicket(Some(intentId), i.buyerUserId, i.eventId,
                                                              Some(i.organizerId), Issued, Some(tokenHash), None,
                                                              Some(endsAt))])
                 && out.value == |d.tickets|
  {
    HasTicketIsFound(d.tickets, intents[intentId], intentId);
  }
}
