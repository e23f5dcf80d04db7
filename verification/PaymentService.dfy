// The payment requests as the services run them on the rows, one transaction
// after another.
module PaymentService {
  import opened Wrappers
  import opened Payments

  // What one uninterrupted delivery does, from lookup to conclusion.
  function Delivered(db: PayTables, env: Envelope, answer: Answer, at: int): PayTables {
    var found := if env.reference.Some? then FindByReference(db.intents, env.reference.value) else None;
    var (db1, stored) := StoreEvent(db, env, found);
    match stored
    case Existing(e) => LogIf(db1, if found.Some? then found else db1.events[e].intentId, WebhookDuplicate)
    case Created(e) =>
      var db2 := LogIf(db1, found, WebhookReceived);
      var early := Classify(db1.intents, env, found);
      if early.Some? then Conclude(db2, e, found, early.value, at)
      else
        var db3 := Log(db2, found.value, VerificationStarted);
        Conclude(db3, e, found, Decide(db3.intents[found.value], answer), at)
  }

  lemma ClassifiedIsRun(
    s: Pay, hid: nat, e: nat, env: Envelope, found: Option<nat>, answer: Answer, at: int)
    requires hid in s.deliveries && s.deliveries[hid] == Unclassified(e, env, found) && e < |s.db.events|
    requires found.Some? ==> found.value < |s.db.intents|
    ensures var early := Classify(s.db.intents, env, found);
            var db2 := LogIf(s.db, found, WebhookReceived);
            Next(Next(Next(s, DoClassify(hid)), DoAnswer(hid, answer)), DoConclude(hid, at)).db
            == if early.Some? then Conclude(db2, e, found, early.value, at)
               else Conclude(Log(db2, found.value, VerificationStarted), e, found,
                             Decide(s.db.intents[found.value], answer), at)
  {
    var s1 := Next(s, DoClassify(hid));
    var early := Classify(s.db.intents, env, found);
    if early.Some? {
      assert s1.deliveries[hid] == Concluding(e, found, early.value);
    } else {
      assert s1.deliveries[hid] == Verifying(e, found.value);
    }
  }

  // A delivery that nothing interleaves with is the run of its five steps.
  lemma DeliveredIsRun(s: Pay, hid: nat, env: Envelope, answer: Answer, at: int)
    requires hid !in s.deliveries
    ensures var s1 := Next(Next(s, DoLookUp(hid, env)), DoStore(hid));
            var stored := StoreEvent(s.db, env, if env.reference.Some?
                                                then FindByReference(s.db.intents, env.reference.value)
                                                else None).1;
            if stored.Existing?
            then Next(s1, DoLogDuplicate(hid)).db == Delivered(s.db, env, answer, at)
            else Next(Next(Next(s1, DoClassify(hid)), DoAnswer(hid, answer)), DoConclude(hid, at)).db
                 == Delivered(s.db, env, answer, at)
  {
    var found := if env.reference.Some? then FindByReference(s.db.intents, env.reference.value) else None;
    var s0 := Next(s, DoLookUp(hid, env));
    assert s0.deliveries[hid] == LookedUp(env, found);
    var s1 := Next(s0, DoStore(hid));
    var (db1, stored) := StoreEvent(s.db, env, found);
    if stored.Created? {
      assert s1.deliveries[hid] == Unclassified(stored.eventId, env, found);
      ClassifiedIsRun(s1, hid, stored.eventId, env, found, answer, at);
    } else {
      assert s1.deliveries[hid] == Duplicated(stored.eventId, found);
    }
  }

  class PaymentRows {
    var intents: seq<Intent>
    var events: seq<WebhookEvent>
    var audits: seq<IntentAudit>

    ghost function View(): PayTables
      reads this
    {
      PayTables(intents, events, audits)
    }

    constructor ()
      ensures View() == NO_PAYMENTS.db
    {
      intents, events, audits := [], [], [];
    }

    /******* Guarded transitions: rows affected *******/

    method TransitionToVerified(id: nat, at: int, amount: int, currency: string) returns (count: nat)
      requires id < |intents|
      modifies this`intents
      ensures count == 1 <==> old(Open(intents[id]))
      ensures intents == if count == 1
                         then old(intents)[id := Transitioned(old(intents)[id], ToVerified, at, amount, currency)]
                         else old(intents)
    {
      if intents[id].status != Initiated && intents[id].status != InitiationPending {
        return 0;
      }
      intents := intents[id := intents[id].(status := Verified, verifiedAt := Some(at))];
      intents := intents[id := intents[id].(failedAt := None, failure := None)];
      intents := intents[id := intents[id].(verifiedAmount := Some(amount), verifiedCurrency := Some(currency))];
      return 1;
    }

    method TransitionToFailed(id: nat, at: int, amount: int, currency: string) returns (count: nat)
      requires id < |intents|
      modifies this`intents
      ensures count == 1 <==> old(Open(intents[id]))
      ensures intents == if count == 1
                         then old(intents)[id := Transitioned(old(intents)[id], ToFailed, at, amount, currency)]
                         else old(intents)
    {
      if intents[id].status != Initiated && intents[id].status != InitiationPending {
        return 0;
      }
      intents := intents[id := intents[id].(status := IntentFailed, failedAt := Some(at))];
      intents := intents[id := intents[id].(failure := Some("PROVIDER_PAYMENT_FAILED"))];
      intents := intents[id := intents[id].(verifiedAmount := Some(amount), verifiedCurrency := Some(currency))];
      return 1;
    }

    method AppendAudit(id: nat, kind: AuditKind)
      modifies this`audits
      ensures audits == old(audits) + [IntentAudit(id, kind)]
    {
      audits := audits + [IntentAudit(id, kind)];
    }

    method UpdateProcessing(eventId: nat, status: ProcessingStatus, intentId: Option<nat>)
      requires eventId < |events|
      modifies this`events
      ensures events == old(events)[eventId := old(events)[eventId].(status := status, intentId := intentId)]
    {
      events := events[eventId := events[eventId].(status := status, intentId := intentId)];
    }

    /******* Webhooks *******/

    method ApplyTransition(eventId: nat, id: nat, target: Target, amount: int, currency: string, at: int)
      returns (status: ProcessingStatus)
      requires eventId < |events| && id < |intents|
      modifies this
      ensures View() == ApplyTerminalTransition(old(View()), eventId, id, target, amount, currency, at)
      ensures status == if old(Open(intents[id])) then EventVerified else EventProcessed
    {
      var transitionCount;
      if target == ToVerified {
        transitionCount := TransitionToVerified(id, at, amount, currency);
      } else {
        transitionCount := TransitionToFailed(id, at, amount, currency);
      }
      if transitionCount != 1 {
        var alreadyProcessed := intents[id].status == Verified && target == ToVerified;
        AppendAudit(id, if alreadyProcessed then TransitionSkipped else TransitionRejected);
        UpdateProcessing(eventId, EventProcessed, Some(id));
        return EventProcessed;
      }
      AppendAudit(id, if target == ToVerified then VerificationSucceeded else VerificationFailed);
      AppendAudit(id, if target == ToVerified then TransitionVerified else TransitionFailed);
      UpdateProcessing(eventId, EventVerified, Some(id));
      return EventVerified;
    }

    method Finish(eventId: nat, intentId: Option<nat>, action: Action, at: int)
      requires eventId < |events| && (intentId.Some? ==> intentId.value < |intents|)
      modifies this
      ensures View() == Conclude(old(View()), eventId, intentId, action, at)
      ensures |events| == old(|events|) && |intents| == old(|intents|)
    {
      match action {
        case Reject(note) =>
          UpdateProcessing(eventId, EventRejected, intentId);
          if intentId.Some? && note.Some? {
            AppendAudit(intentId.value, note.value);
          }
        case Process(kind) =>
          UpdateProcessing(eventId, EventProcessed, intentId);
          if intentId.Some? {
            AppendAudit(intentId.value, kind);
          }
        case RecordError =>
          UpdateProcessing(eventId, EventFailed, intentId);
          if intentId.Some? {
            AppendAudit(intentId.value, VerificationFailed);
          }
        case Transition(target, amount, currency) =>
          if intentId.Some? {
            var _ := ApplyTransition(eventId, intentId.value, target, amount, currency, at);
          }
      }
    }

    method CreateWebhookEvent(env: Envelope, intentId: Option<nat>) returns (stored: Stored)
      modifies this`events
      ensures (View(), stored) == StoreEvent(old(View()), env, intentId)
    {
      var existing := FindDelivery(events, env.provider, env.payloadHash, env.eventKey);
      if existing.Some? {
        return Existing(existing.value);
      }
      stored := Created(|events|);
      events := events + [WebhookEvent(env.provider, env.eventKey, env.payloadHash, Received, intentId)];
    }

    // The whole handler with the provider's answer given.
    method ProcessEnvelope(env: Envelope, answer: Answer, at: int)
      modifies this
      ensures View() == Delivered(old(View()), env, answer, at)
    {
      var found: Option<nat> := None;
      if env.reference.Some? {
        found := FindByReference(intents, env.reference.value);
      }
      var stored := CreateWebhookEvent(env, found);
      if stored.Existing? {
        var known := if found.Some? then found else events[stored.eventId].intentId;
        if known.Some? {
          AppendAudit(known.value, WebhookDuplicate);
        }
        return;
      }
      if found.Some? {
        AppendAudit(found.value, WebhookReceived);
      }
      if !env.supported {
        Finish(stored.eventId, found, Process(UnsupportedIgnored), at);
        return;
      }
      if env.reference.None? || found.None? {
        Finish(stored.eventId, found, Reject(None), at);
        return;
      }
      if intents[found.value].provider != env.provider {
        Finish(stored.eventId, found, Reject(Some(ProviderMismatch)), at);
        return;
      }
      AppendAudit(found.value, VerificationStarted);
      Finish(stored.eventId, found, Decide(intents[found.value], answer), at);
    }

    /******* Initiation *******/

    // The read, and the insert of a new intent; a retry is left to write.
    method ReadIntent(o: InitiationRequest) returns (result: Result<InitiationAction>)
      modifies this
      ensures (View(), result) == BeginInitiation(old(View()), o)
      ensures result.Ok? ==> result.value.intentId < |intents|
    {
      var existing := FindByKey(intents, o.buyerUserId, o.keyHash);
      if existing.Some? {
        var id := existing.value;
        if intents[id].fingerprint != o.fingerprint {
          return Err(IdempotencyConflict);
        }
        if intents[id].status == InitiationFailed {
          return Ok(Retry(id));
        }
        AppendAudit(id, InitiationReplay);
        return Ok(ReturnExisting(id));
      }
      var clash := FindByReference(intents, o.keyHash.head);
      if clash.Some? {
        return Err(UniqueViolation);
      }
      var id := |intents|;
      intents := intents + [NewIntent(o)];
      AppendAudit(id, InitiationRequested);
      return Ok(CallProvider(id));
    }

    method WriteRetry(id: nat)
      requires id < |intents|
      modifies this
      ensures View() == RetryInitiation(old(View()), id)
    {
      intents := intents[id := intents[id].(status := InitiationPending, failure := None, failedAt := None)];
      AppendAudit(id, InitiationRequested);
    }

    // Both halves, when no other request comes between them.
    method InitiateTransaction(o: InitiationRequest) returns (result: Result<InitiationAction>)
      modifies this
      ensures var (db, read) := BeginInitiation(old(View()), o);
              if read.Ok? && read.value.Retry?
              then read.value.intentId < |db.intents|
                   && View() == RetryInitiation(db, read.value.intentId)
                   && result == Ok(CallProvider(read.value.intentId))
              else (View(), result) == (db, read)
    {
      result := ReadIntent(o);
      if result.Ok? && result.value.Retry? {
        WriteRetry(result.value.intentId);
        result := Ok(CallProvider(result.value.intentId));
      }
    }

    method MarkIntentInitiated(id: nat, at: int)
      requires id < |intents|
      modifies this
      ensures View() == Payments.PersistInitiated(old(View()), id, at)
    {
      var row := intents[id];
      row := row.(status := Initiated, initiatedAt := Some(at), verifiedAt := None);
      row := row.(failure := None, failedAt := None);
      row := row.(verifiedAmount := None, verifiedCurrency := None);
      intents := intents[id := row];
      AppendAudit(id, InitiationSucceeded);
    }

    method MarkIntentFailed(id: nat, at: int, code: string)
      requires id < |intents|
      modifies this
      ensures View() == Payments.RecordInitiationFailure(old(View()), id, at, code)
    {
      intents := intents[id := intents[id].(status := InitiationFailed, failure := Some(code), failedAt := Some(at))];
      AppendAudit(id, InitiationFailure);
    }
  }
}
