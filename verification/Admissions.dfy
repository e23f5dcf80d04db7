// Tickets of verified payments and the scans that admit them. A scan reads the
// ticket first and uses it in a later transaction.
module Admissions {
  import opened Wrappers
  import Payments

  datatype TicketStatus = Issued | Active | Used | Exited | Invalidated | Refunded | Blocked | Voided | TicketExpired

  // Order-issued tickets have no payment intent and no admission token.
  datatype PaidTicket = PaidTicket(
    intentId: Option<nat>,
    ownerUserId: nat,
    eventId: nat,
    organizerId: Option<nat>,
    status: TicketStatus,
    tokenHash: Option<nat>,
    usedAt: Option<int>,
    expiresAt: Option<int>)

  datatype Reason =
    | InvalidToken | TicketNotFound | TicketNotIssued | TicketVoided | TicketExpiredReason | TicketAlreadyUsed
    | EventNotActive | EventMismatch | OrganizerMismatch | TokenReplayDetected | StaffNotAuthorized

  datatype ScanAudit = ScanAudit(scanId: nat, ticketId: Option<nat>, rejection: Option<Reason>)

  // The event row as one read sees it.
  datatype EventFacts = EventFacts(published: bool, endsAt: int, organizerId: nat, ownerUserId: nat)

  datatype ScanInput = ScanInput(
    ticketId: nat,
    tokenHash: nat,
    scannedByUserId: nat,
    eventId: Option<nat>,
    scannedAt: int)

  datatype Scan =
    | Refusing(target: Option<nat>, reason: Reason)
    | Using(ticketId: nat, tokenHash: nat, scannedAt: int)

  datatype IssuanceKind = RejectedNotVerified | IssuanceFailed | Requested | IdempotentReplay | TicketIssued

  datatype IssuanceAudit = IssuanceAudit(intentId: nat, kind: IssuanceKind)

  datatype Door = Door(
    tickets: seq<PaidTicket>,
    issuance: seq<IssuanceAudit>,
    audits: seq<ScanAudit>,
    scans: map<nat, Scan>,
    completed: set<nat>)

  /******* Classification *******/

  function ClassifyState(t: PaidTicket, facts: EventFacts, scannedAt: int): Option<Reason> {
    match t.status
    case Used => Some(TicketAlreadyUsed)
    case Voided => Some(TicketVoided)
    case Invalidated => Some(TicketVoided)
    case Refunded => Some(TicketVoided)
    case Blocked => Some(TicketVoided)
    case TicketExpired => Some(TicketExpiredReason)
    case Active => Some(TicketNotIssued)
    case Exited => Some(TicketNotIssued)
    case Issued =>
      if !facts.published then Some(EventNotActive)
      else if t.expiresAt.Some? && scannedAt > t.expiresAt.value then Some(TicketExpiredReason)
      else if scannedAt > facts.endsAt then Some(EventNotActive)
      else None
  }

  function Preflight(tickets: seq<PaidTicket>, input: ScanInput, facts: EventFacts): Option<Reason> {
    if input.ticketId >= |tickets| then Some(TicketNotFound)
    else
      var t := tickets[input.ticketId];
      if t.tokenHash != Some(input.tokenHash) then Some(InvalidToken)
      else if t.organizerId.Some? && t.organizerId.value != facts.organizerId then Some(OrganizerMismatch)
      else if facts.ownerUserId != input.scannedByUserId then Some(StaffNotAuthorized)
      else if input.eventId.Some? && input.eventId.value != t.eventId then Some(EventMismatch)
      else ClassifyState(t, facts, input.scannedAt)
  }

  /******* Transactions *******/

  // markUsedIfIssuable
  predicate Usable(tickets: seq<PaidTicket>, id: nat, tokenHash: nat) {
    id < |tickets| && tickets[id].status == Issued && tickets[id].tokenHash == Some(tokenHash)
  }

  function FinishScan(tickets: seq<PaidTicket>, audits: seq<ScanAudit>, sid: nat, scan: Scan, facts: EventFacts)
    : (seq<PaidTicket>, seq<ScanAudit>)
  {
    match scan
    case Refusing(id, reason) => (tickets, audits + [ScanAudit(sid, id, Some(reason))])
    case Using(id, tokenHash, scannedAt) =>
      if Usable(tickets, id, tokenHash) then
        (tickets[id := tickets[id].(status := Used, usedAt := Some(scannedAt))],
         audits + [ScanAudit(sid, Some(id), None)])
      else if id >= |tickets| then (tickets, audits + [ScanAudit(sid, None, Some(TicketNotFound))])
      else
        var state := ClassifyState(tickets[id], facts, scannedAt);
        (tickets, audits + [ScanAudit(sid, Some(id), Some(if state.Some? then state.value else TokenReplayDetected))])
  }

  function FindTicket(tickets: seq<PaidTicket>, intentId: nat, owner: nat, eventId: nat): (id: Option<nat>)
    ensures id.Some? ==> id.value < |tickets| && tickets[id.value].intentId == Some(intentId)
                         && tickets[id.value].ownerUserId == owner && tickets[id.value].eventId == eventId
    ensures id.None? ==>
              forall i :: 0 <= i < |tickets| ==>
                !(tickets[i].intentId == Some(intentId) && tickets[i].ownerUserId == owner
                  && tickets[i].eventId == eventId)
  {
    if |tickets| == 0 then None
    else
      var n := |tickets| - 1;
      if tickets[n].intentId == Some(intentId) && tickets[n].ownerUserId == owner && tickets[n].eventId == eventId
      then Some(n)
      else FindTicket(tickets[..n], intentId, owner, eventId)
  }

  predicate TokenTaken(tickets: seq<PaidTicket>, tokenHash: nat) {
    exists i :: 0 <= i < |tickets| && tickets[i].tokenHash == Some(tokenHash)
  }

  function LogIssuance(d: Door, intentId: nat, kind: IssuanceKind): Door {
    d.(issuance := d.issuance + [IssuanceAudit(intentId, kind)])
  }

  // snapshotOk: buyer, organizer and event rows are there and agree.
  function IssueFromPayment(
    d: Door, intents: seq<Payments.Intent>, intentId: nat, tokenHash: nat, snapshotOk: bool, endsAt: int)
    : (Door, Result<nat>)
  {
    if intentId >= |intents| then (d, Err(NotFound))
    else
      var i := intents[intentId];
      if i.status != Payments.Verified then (LogIssuance(d, intentId, RejectedNotVerified), Err(InvalidState))
      else if !snapshotOk then (LogIssuance(d, intentId, IssuanceFailed), Err(InvalidState))
      else
        var d1 := LogIssuance(d, intentId, Requested);
        match FindTicket(d.tickets, intentId, i.buyerUserId, i.eventId)
        case Some(id) => (LogIssuance(d1, intentId, IdempotentReplay), Ok(id))
        case None =>
          if TokenTaken(d.tickets, tokenHash) then (d, Err(UniqueViolation))
          else
            var t := PaidTicket(Some(intentId), i.buyerUserId, i.eventId, Some(i.organizerId), Issued,
                                Some(tokenHash), None, Some(endsAt));
            (LogIssuance(d1.(tickets := d1.tickets + [t]), intentId, TicketIssued), Ok(|d.tickets|))
  }

  /******* Payments and door together *******/

  datatype World = World(pay: Payments.Pay, door: Door)

  datatype Step =
    | OnPayments(step: Payments.PayStep)
    | DoIssue(intentId: nat, tokenHash: nat, snapshotOk: bool, endsAt: int)
    | DoOrderTicket(owner: nat, eventId: nat)
    | DoPreflight(sid: nat, input: ScanInput, facts: EventFacts)
    | DoFinish(sid: nat, facts: EventFacts)

  function Next(w: World, step: Step): World {
    match step
    case OnPayments(s) => w.(pay := Payments.Next(w.pay, s))
    case DoIssue(intentId, tokenHash, snapshotOk, endsAt) =>
      w.(door := IssueFromPayment(w.door, w.pay.db.intents, intentId, tokenHash, snapshotOk, endsAt).0)
    case DoOrderTicket(owner, eventId) =>
      var ticket := PaidTicket(None, owner, eventId, None, Active, None, None, None);
      w.(door := w.door.(tickets := w.door.tickets + [ticket]))
    case DoPreflight(sid, input, facts) =>
      if sid in w.door.scans || sid in w.door.completed then w
      else
        var rejection := Preflight(w.door.tickets, input, facts);
        var scan := if rejection.Some?
                    then Refusing(if input.ticketId < |w.door.tickets| then Some(input.ticketId) else None,
                                  rejection.value)
                    else Using(input.ticketId, input.tokenHash, input.scannedAt);
        w.(door := w.door.(scans := w.door.scans[sid := scan]))
    case DoFinish(sid, facts) =>
      if sid !in w.door.scans then w
      else
        var (tickets, audits) := FinishScan(w.door.tickets, w.door.audits, sid, w.door.scans[sid], facts);
        w.(door := Door(tickets, w.door.issuance, audits, w.door.scans - {sid}, w.door.completed + {sid}))
  }

  function Run(w: World, steps: seq<Step>): World {
    if |steps| == 0 then w else Next(Run(w, steps[..|steps| - 1]), steps[|steps| - 1])
  }

  const OPENING := World(Payments.NO_PAYMENTS, Door([], [], [], map[], {}))
}
