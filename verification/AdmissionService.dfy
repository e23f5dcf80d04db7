// Issuance and scanning as the services run them on the rows.
module AdmissionService {
  import opened Wrappers
  import opened Admissions
  import opened ScanOutcomes
  import Payments

  class DoorRows {
    var tickets: seq<PaidTicket>
    var issuance: seq<IssuanceAudit>
    var audits: seq<ScanAudit>

    // scans and completed are not rows; a view pairs the rows with them.
    ghost function View(scans: map<nat, Scan>, completed: set<nat>): Door
      reads this
    {
      Door(tickets, issuance, audits, scans, completed)
    }

    constructor ()
      ensures tickets == [] && issuance == [] && audits == []
    {
      tickets, issuance, audits := [], [], [];
    }

    method AppendIssuanceAudit(intentId: nat, kind: IssuanceKind)
      modifies this`issuance
      ensures issuance == old(issuance) + [IssuanceAudit(intentId, kind)]
    {
      issuance := issuance + [IssuanceAudit(intentId, kind)];
    }

    method IsTokenTaken(tokenHash: nat) returns (taken: bool)
      ensures taken <==> TokenTaken(tickets, tokenHash)
    {
      for i := 0 to |tickets|
        invariant forall j :: 0 <= j < i ==> tickets[j].tokenHash != Some(tokenHash)
      {
        if tickets[i].tokenHash == Some(tokenHash) {
          return true;
        }
      }
      return false;
    }

    method IssueTicketFromVerifiedPayment(
      intents: seq<Payments.Intent>, intentId: nat, tokenHash: nat, snapshotOk: bool, endsAt: int)
      returns (result: Result<nat>)
      modifies this
      ensures forall scans: map<nat, Scan>, completed: set<nat> ::
                (View(scans, completed), result)
                == IssueFromPayment(old(View(scans, completed)), intents, intentId, tokenHash, snapshotOk, endsAt)
    {
      if intentId >= |intents| {
        return Err(NotFound);
      }
      var intent := intents[intentId];
      if intent.status != Payments.Verified {
        AppendIssuanceAudit(intentId, RejectedNotVerified);
        return Err(InvalidState);
      }
      if !snapshotOk {
        AppendIssuanceAudit(intentId, IssuanceFailed);
        return Err(InvalidState);
      }
      var before := issuance;
      AppendIssuanceAudit(intentId, Requested);
      var existing := FindTicket(tickets, intentId, intent.buyerUserId, intent.eventId);
      if existing.Some? {
        AppendIssuanceAudit(intentId, IdempotentReplay);
        return Ok(existing.value);
      }
      var taken := IsTokenTaken(tokenHash);
      if taken {
        issuance := before;
        return Err(UniqueViolation);
      }
      var id := |tickets|;
      tickets := tickets + [PaidTicket(Some(intentId), intent.buyerUserId, intent.eventId, Some(intent.organizerId),
                                       Issued, Some(tokenHash), None, Some(endsAt))];
      AppendIssuanceAudit(intentId, TicketIssued);
      return Ok(id);
    }

    method MarkUsedIfIssuable(id: nat, tokenHash: nat, usedAt: int) returns (count: nat)
      modifies this`tickets
      ensures count == 1 <==> Usable(old(tickets), id, tokenHash)
      ensures tickets == if count == 1
                         then old(tickets)[id := old(tickets)[id].(status := Used, usedAt := Some(usedAt))]
                         else old(tickets)
    {
      if id >= |tickets| || tickets[id].status != Issued || tickets[id].tokenHash != Some(tokenHash) {
        return 0;
      }
      tickets := tickets[id := tickets[id].(status := Used, usedAt := Some(usedAt))];
      return 1;
    }

    // The second half of a scan, after its preflight decided what to do.
    method CompleteScan(sid: nat, scan: Scan, facts: EventFacts) returns (accepted: bool)
      modifies this
      ensures (tickets, audits) == FinishScan(old(tickets), old(audits), sid, scan, facts)
      ensures issuance == old(issuance)
      ensures accepted <==> scan.Using? && Usable(old(tickets), scan.ticketId, scan.tokenHash)
    {
      match scan {
        case Refusing(target, reason) =>
          audits := audits + [ScanAudit(sid, target, Some(reason))];
          return false;
        case Using(id, tokenHash, scannedAt) =>
          var updated := MarkUsedIfIssuable(id, tokenHash, scannedAt);
          if updated == 1 {
            audits := audits + [ScanAudit(sid, Some(id), None)];
            return true;
          }
          if id >= |tickets| {
            audits := audits + [ScanAudit(sid, None, Some(TicketNotFound))];
            return false;
          }
          var state := ClassifyState(tickets[id], facts, scannedAt);
          var reason := if state.Some? then state.value else TokenReplayDetected;
          audits := audits + [ScanAudit(sid, Some(id), Some(reason))];
          return false;
      }
    }

    // A scan nothing interleaves with.
    method ScanTicket(sid: nat, input: ScanInput, facts: EventFacts) returns (accepted: bool)
      modifies this
      ensures accepted <==> Admissible(old(tickets), input, facts)
      ensures |audits| == old(|audits|) + 1 && audits[..old(|audits|)] == old(audits)
      ensures audits[old(|audits|)].scanId == sid
      ensures audits[old(|audits|)].ticketId == if input.ticketId < |old(tickets)| then Some(input.ticketId) else None
      ensures accepted <==> audits[old(|audits|)].rejection.None?
      ensures !accepted ==> ScanReason(old(tickets), input, facts, audits[old(|audits|)].rejection.value)
      ensures issuance == old(issuance)
      ensures accepted ==>
                && input.ticketId < |tickets| == |old(tickets)|
                && old(tickets)[input.ticketId].status == Issued
                && tickets == old(tickets)[input.ticketId :=
                     old(tickets)[input.ticketId].(status := Used, usedAt := Some(input.scannedAt))]
      ensures !accepted ==> tickets == old(tickets)
    {
      var rejection := Preflight(tickets, input, facts);
      PreflightTells(tickets, input, facts);
      var scan;
      if rejection.Some? {
        scan := Refusing(if input.ticketId < |tickets| then Some(input.ticketId) else None, rejection.value);
      } else {
        scan := Using(input.ticketId, input.tokenHash, input.scannedAt);
      }
      accepted := CompleteScan(sid, scan, facts);
    }
  }
}
