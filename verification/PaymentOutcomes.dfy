// What each payment request and each delivery does to the rows, case by case.
module PaymentOutcomes {
  import opened Wrappers
  import opened Payments
  import opened PaymentProofs
  import opened PaymentTerminal

  // The audits of one intent, in order.
  function Notes(id: nat, kinds: seq<AuditKind>): (audits: seq<IntentAudit>)
    ensures |audits| == |kinds|
    ensures forall k :: 0 <= k < |kinds| ==> audits[k] == IntentAudit(id, kinds[k])
  {
    seq(|kinds|, k requires 0 <= k < |kinds| => IntentAudit(id, kinds[k]))
  }

  /******* What the provider's answer does *******/

  // The answer is about this payment: its reference, amount and currency.
  predicate Matches(i: Intent, answer: Answer) {
    answer.ProviderResult? && answer.reference == i.providerReference && answer.amountMinor == i.amountMinor
    && answer.currency == i.currency
  }

  // It is, it is final, and the intent still waits for it.
  predicate Moves(i: Intent, answer: Answer) {
    Matches(i, answer) && !answer.outcome.OutcomePending? && (i.status == Initiated || i.status == InitiationPending)
  }

  // The row before and after an answer.
  ghost predicate RowAfter(i: Intent, i': Intent, answer: Answer, at: int) {
    if !Moves(i, answer) then i' == i
    else if answer.outcome.OutcomeSuccess? then
      i' == i.(status := Verified, verifiedAt := Some(at), failedAt := None, failure := None,
               verifiedAmount := Some(i.amountMinor), verifiedCurrency := Some(i.currency))
    else
      i' == i.(status := IntentFailed, failedAt := Some(at), failure := Some("PROVIDER_PAYMENT_FAILED"),
               verifiedAmount := Some(i.amountMinor), verifiedCurrency := Some(i.currency))
  }

  // How the stored event ends.
  ghost predicate EventEnds(i: Intent, status: ProcessingStatus, answer: Answer) {
    && (status == EventVerified <==> Moves(i, answer))
    && (status == EventProcessed <==> Matches(i, answer) && !Moves(i, answer))
    && (status == EventRejected <==> answer.ProviderResult? && !Matches(i, answer))
    && (status == EventFailed <==> answer.ProviderError?)
  }

  // What is logged: the first thing that does not match, or the transition, or why
  // there was none.
  ghost predicate Logs(i: Intent, answer: Answer, kinds: seq<AuditKind>) {
    match answer
    case ProviderError => kinds == [VerificationFailed]
    case ProviderResult(reference, amount, currency, outcome) =>
      && (reference != i.providerReference ==> kinds == [ReferenceMismatch])
      && (reference == i.providerReference && amount != i.amountMinor ==> kinds == [AmountMismatch])
      && (reference == i.providerReference && amount == i.amountMinor && currency != i.currency ==>
            kinds == [CurrencyMismatch])
      && (Matches(i, answer) && outcome.OutcomePending? ==> kinds == [VerificationPending])
      && (Moves(i, answer) && outcome.OutcomeSuccess? ==> kinds == [VerificationSucceeded, TransitionVerified])
      && (Moves(i, answer) && outcome.OutcomeFailed? ==> kinds == [VerificationFailed, TransitionFailed])
      && (Matches(i, answer) && !outcome.OutcomePending? && !Moves(i, answer) ==>
            kinds == [if i.status == Verified && outcome.OutcomeSuccess? then TransitionSkipped
                      else TransitionRejected])
  }

  lemma AnswerEffect(t: Pay, hid: nat, e: nat, id: nat, answer: Answer, at: int) returns (kinds: seq<AuditKind>)
    requires id < |t.db.intents| && e < |t.db.events|
    requires hid in t.deliveries && t.deliveries[hid] == Verifying(e, id)
    ensures var u := Next(Next(t, DoAnswer(hid, answer)), DoConclude(hid, at)); var i := t.db.intents[id];
            && |u.db.intents| == |t.db.intents| && u.db.intents == t.db.intents[id := u.db.intents[id]]
            && RowAfter(i, u.db.intents[id], answer, at)
            && |u.db.events| == |t.db.events|
            && u.db.events == t.db.events[e := t.db.events[e].(status := u.db.events[e].status, intentId := Some(id))]
            && EventEnds(i, u.db.events[e].status, answer)
            && Logs(i, answer, kinds) && u.db.audits == t.db.audits + Notes(id, kinds)
            && u.calls == t.calls && u.deliveries == t.deliveries - {hid}
  {
    var t1 := Next(t, DoAnswer(hid, answer));
    var action := t1.deliveries[hid].action;
    assert t1.db == t.db && t1.deliveries[hid] == Concluding(e, Some(id), action);
    var u := Next(t1, DoConclude(hid, at));
    assert u.db == Conclude(t.db, e, Some(id), action, at);
    assert u.deliveries == t.deliveries - {hid};
    var before, after := t.db.audits, u.db.audits;
    kinds := seq(|after| - |before|, k requires 0 <= k < |after| - |before| => after[|before| + k].kind);
  }

  // What a first supported delivery leaves behind.
  ghost predicate DeliveryEnds(
    s: Pay, u: Pay, env: Envelope, id: nat, answer: Answer, at: int, kinds: seq<AuditKind>)
    requires id < |s.db.intents|
  {
    var i, e := s.db.intents[id], |s.db.events|;
    && |u.db.intents| == |s.db.intents| && u.db.intents == s.db.intents[id := u.db.intents[id]]
    && RowAfter(i, u.db.intents[id], answer, at)
    && |u.db.events| == e + 1 && u.db.events[..e] == s.db.events
    && u.db.events[e] == WebhookEvent(env.provider, env.eventKey, env.payloadHash, u.db.events[e].status, Some(id))
    && EventEnds(i, u.db.events[e].status, answer)
    && Logs(i, answer, kinds)
    && u.db.audits == s.db.audits + Notes(id, [WebhookReceived, VerificationStarted] + kinds)
    && u.calls == s.calls && u.deliveries == s.deliveries
  }

  lemma DeliveryEffect(s: Pay, hid: nat, env: Envelope, id: nat, answer: Answer, at: int)
    returns (kinds: seq<AuditKind>)
    requires Inv(s) && FirstDelivery(s, hid, env, id)
    ensures var t := Next(Next(Next(s, DoLookUp(hid, env)), DoStore(hid)), DoClassify(hid));
            DeliveryEnds(s, Next(Next(t, DoAnswer(hid, answer)), DoConclude(hid, at)), env, id, answer, at, kinds)
  {
    FirstThree(s, hid, env, id);
    var t := Next(Next(Next(s, DoLookUp(hid, env)), DoStore(hid)), DoClassify(hid));
    kinds := AnswerEffect(t, hid, |s.db.events|, id, answer, at);
    assert t.deliveries - {hid} == s.deliveries;
    assert Notes(id, [WebhookReceived, VerificationStarted] + kinds)
           == [IntentAudit(id, WebhookReceived), IntentAudit(id, VerificationStarted)] + Notes(id, kinds);
  }

  // Of an open row: which end it takes.
  lemma OpenRowEnds(i: Intent, i': Intent, answer: Answer, at: int)
    requires RowAfter(i, i', answer, at) && (i.status == Initiated || i.status == InitiationPending)
    ensures i'.status == Verified <==> Matches(i, answer) && answer.outcome.OutcomeSuccess?
    ensures i'.status == IntentFailed <==> Matches(i, answer) && answer.outcome.OutcomeFailed?
    ensures i' == i || (Matches(i, answer) && (answer.outcome.OutcomeSuccess? || answer.outcome.OutcomeFailed?))
  {
  }

  // A first supported delivery from the intent's own provider, in any reachable
  // state: an open intent ends VERIFIED exactly when reference, amount and currency
  // match and the outcome is success, FAILED exactly when they match and it is
  // failure, and otherwise stays as it is; one that is not open never moves.
  lemma FirstDeliveryEnds(past: seq<PayStep>, s: Pay, hid: nat, env: Envelope, id: nat, answer: Answer, at: int, u: Pay)
    returns (kinds: seq<AuditKind>)
    requires s == Run(NO_PAYMENTS, past) && FirstDelivery(s, hid, env, id)
    requires u == Run(NO_PAYMENTS, past + DeliverySteps(hid, env, answer, at))
    ensures DeliveryEnds(s, u, env, id, answer, at, kinds)
    ensures var i, i' := s.db.intents[id], u.db.intents[id];
            if i.status == Initiated || i.status == InitiationPending
            then
              && (i'.status == Verified <==> Matches(i, answer) && answer.outcome.OutcomeSuccess?)
              && (i'.status == IntentFailed <==> Matches(i, answer) && answer.outcome.OutcomeFailed?)
              && (i' == i || i'.status == Verified || i'.status == IntentFailed)
            else i' == i
  {
    RunKeepsInv(NO_PAYMENTS, past);
    RunDelivery(NO_PAYMENTS, past, hid, env, answer, at);
    kinds := DeliveryEffect(s, hid, env, id, answer, at);
    var i := s.db.intents[id];
    if i.status == Initiated || i.status == InitiationPending { OpenRowEnds(i, u.db.intents[id], answer, at); }
  }

  /******* Deliveries the provider is not asked about *******/

  // The intent a delivery names, if any.
  ghost predicate Names(intents: seq<Intent>, env: Envelope, found: Option<nat>) {
    match found
    case Some(id) => id < |intents| && env.reference == Some(intents[id].providerReference)
    case None => forall i :: 0 <= i < |intents| ==> env.reference != Some(intents[i].providerReference)
  }

  lemma NamesIsFound(s: Pay, env: Envelope, found: Option<nat>)
    requires Inv(s) && Names(s.db.intents, env, found)
    ensures found == if env.reference.Some? then FindByReference(s.db.intents, env.reference.value) else None
  {
  }

  lemma StoredFirst(s: Pay, hid: nat, env: Envelope, found: Option<nat>)
    requires Inv(s) && hid !in s.deliveries && Names(s.db.intents, env, found) && Unseen(s.db.events, env)
    ensures Next(Next(s, DoLookUp(hid, env)), DoStore(hid))
            == Pay(s.db.(events := s.db.events
                     + [WebhookEvent(env.provider, env.eventKey, env.payloadHash, Received, found)]),
                   s.calls, s.deliveries[hid := Unclassified(|s.db.events|, env, found)])
  {
    NamesIsFound(s, env, found);
    UnseenIffNotFound(s.db.events, env);
    assert Next(s, DoLookUp(hid, env)) == s.(deliveries := s.deliveries[hid := LookedUp(env, found)]);
  }

  // Unsupported, without a payment we know, or from another provider than the
  // payment's.
  ghost predicate SettledUnasked(intents: seq<Intent>, env: Envelope, found: Option<nat>)
    requires Names(intents, env, found)
  {
    !env.supported || found.None? || intents[found.value].provider != env.provider
  }

  lemma UnaskedEffect(t: Pay, hid: nat, e: nat, env: Envelope, found: Option<nat>, answer: Answer, at: int)
    requires Names(t.db.intents, env, found) && SettledUnasked(t.db.intents, env, found)
    requires e < |t.db.events| && hid in t.deliveries && t.deliveries[hid] == Unclassified(e, env, found)
    ensures var u := Next(Next(Next(t, DoClassify(hid)), DoAnswer(hid, answer)), DoConclude(hid, at));
            && u.db.intents == t.db.intents
            && u.db.events == t.db.events[e := t.db.events[e].(
                 status := if env.supported then EventRejected else EventProcessed, intentId := found)]
            && u.db.audits
               == t.db.audits + (if found.None? then []
                                 else Notes(found.value, [WebhookReceived,
                                            if env.supported then ProviderMismatch else UnsupportedIgnored]))
            && u.calls == t.calls && u.deliveries == t.deliveries - {hid}
  {
    var t1 := Next(t, DoClassify(hid));
    var action := t1.deliveries[hid].action;
    assert t1.deliveries == t.deliveries[hid := Concluding(e, found, action)];
    assert Next(t1, DoAnswer(hid, answer)) == t1;
    assert t1.deliveries - {hid} == t.deliveries - {hid};
  }

  ghost predicate UnaskedEnds(s: Pay, u: Pay, env: Envelope, found: Option<nat>) {
    && u.db.intents == s.db.intents && u.calls == s.calls && u.deliveries == s.deliveries
    && u.db.events
       == s.db.events + [WebhookEvent(env.provider, env.eventKey, env.payloadHash,
                                      if env.supported then EventRejected else EventProcessed, found)]
    && u.db.audits
       == s.db.audits + (if found.None? then []
                         else Notes(found.value, [WebhookReceived,
                                    if env.supported then ProviderMismatch else UnsupportedIgnored]))
  }

  lemma UnaskedSteps(s: Pay, hid: nat, env: Envelope, found: Option<nat>, answer: Answer, at: int)
    requires Inv(s) && hid !in s.deliveries && Names(s.db.intents, env, found) && Unseen(s.db.events, env)
    requires SettledUnasked(s.db.intents, env, found)
    ensures var t := Next(Next(s, DoLookUp(hid, env)), DoStore(hid));
            UnaskedEnds(s, Next(Next(Next(t, DoClassify(hid)), DoAnswer(hid, answer)), DoConclude(hid, at)), env, found)
  {
    StoredFirst(s, hid, env, found);
    var t := Next(Next(s, DoLookUp(hid, env)), DoStore(hid));
    UnaskedEffect(t, hid, |s.db.events|, env, found, answer, at);
    assert t.deliveries - {hid} == s.deliveries;
  }

  // Such a delivery moves no intent; it is PROCESSED if it was only unsupported and
  // REJECTED otherwise.
  lemma UnaskedDeliveryEnds(
    past: seq<PayStep>, s: Pay, hid: nat, env: Envelope, found: Option<nat>, answer: Answer, at: int)
    requires s == Run(NO_PAYMENTS, past) && hid !in s.deliveries
    requires Names(s.db.intents, env, found) && Unseen(s.db.events, env) && SettledUnasked(s.db.intents, env, found)
    ensures UnaskedEnds(s, Run(NO_PAYMENTS, past + DeliverySteps(hid, env, answer, at)), env, found)
  {
    RunKeepsInv(NO_PAYMENTS, past);
    RunDelivery(NO_PAYMENTS, past, hid, env, answer, at);
    UnaskedSteps(s, hid, env, found, answer, at);
  }

  /******* Deliveries seen before *******/

  // The stored event a delivery repeats: the one with its payload, or else the one
  // with its event id.
  ghost predicate Repeats(events: seq<WebhookEvent>, env: Envelope, e: nat) {
    && e < |events| && events[e].provider == env.provider
    && (events[e].payloadHash == env.payloadHash
        || (events[e].eventKey == env.eventKey
            && forall k :: 0 <= k < |events| ==>
                 events[k].provider != env.provider || events[k].payloadHash != env.payloadHash))
  }

  lemma RepeatsIsFound(s: Pay, env: Envelope, e: nat)
    requires Inv(s) && Repeats(s.db.events, env, e)
    ensures FindDelivery(s.db.events, env.provider, env.payloadHash, env.eventKey) == Some(e)
  {
    var found := FindDelivery(s.db.events, env.provider, env.payloadHash, env.eventKey);
    assert SameDelivery(s.db.events[e], env.provider, env.payloadHash, env.eventKey);
  }

  lemma StoredBefore(s: Pay, hid: nat, env: Envelope, found: Option<nat>, e: nat)
    requires Inv(s) && hid !in s.deliveries && Names(s.db.intents, env, found) && Repeats(s.db.events, env, e)
    ensures Next(Next(s, DoLookUp(hid, env)), DoStore(hid))
            == s.(deliveries := s.deliveries[hid := Duplicated(e, found)])
  {
    NamesIsFound(s, env, found);
    RepeatsIsFound(s, env, e);
    assert Next(s, DoLookUp(hid, env)) == s.(deliveries := s.deliveries[hid := LookedUp(env, found)]);
  }

  lemma LoggedOnce(t: Pay, s: Pay, hid: nat, e: nat, found: Option<nat>)
    requires hid !in s.deliveries && e < |s.db.events|
    requires t == s.(deliveries := s.deliveries[hid := Duplicated(e, found)])
    ensures var known := if found.Some? then found else s.db.events[e].intentId;
            Next(t, DoLogDuplicate(hid))
            == s.(db := s.db.(audits := s.db.audits
                    + (if known.Some? then [IntentAudit(known.value, WebhookDuplicate)] else [])))
  {
    assert t.deliveries - {hid} == s.deliveries;
  }

  // A repeated delivery writes one audit, for the intent it names or else the one
  // its first delivery named, and nothing else.
  lemma RepeatedDeliveryEnds(past: seq<PayStep>, s: Pay, hid: nat, env: Envelope, found: Option<nat>, e: nat)
    requires s == Run(NO_PAYMENTS, past) && hid !in s.deliveries
    requires Names(s.db.intents, env, found) && Repeats(s.db.events, env, e)
    ensures var known := if found.Some? then found else s.db.events[e].intentId;
            Next(Next(Next(s, DoLookUp(hid, env)), DoStore(hid)), DoLogDuplicate(hid))
            == s.(db := s.db.(audits := s.db.audits
                    + (if known.Some? then [IntentAudit(known.value, WebhookDuplicate)] else [])))
  {
    RunKeepsInv(NO_PAYMENTS, past);
    StoredBefore(s, hid, env, found, e);
    LoggedOnce(Next(Next(s, DoLookUp(hid, env)), DoStore(hid)), s, hid, e, found);
  }

  // A delivery with a bad signature is stored as REJECTED, once per payload.
  lemma BadSignatureEnds(s: Pay, payloadHash: nat)
    ensures var s' := Next(s, DoBadSignature(payloadHash));
            s' == if forall e :: 0 <= e < |s.db.events| ==>
                       var ev := s.db.events[e];
                       ev.provider != PaystackProvider
                       || (ev.payloadHash != payloadHash && ev.eventKey != PayloadId(payloadHash))
                  then
                    var ev := WebhookEvent(PaystackProvider, PayloadId(payloadHash), payloadHash, EventRejected, None);
                    s.(db := s.db.(events := s.db.events + [ev]))
                  else s
  {
    UnseenIffNotFound(s.db.events, Envelope(PaystackProvider, payloadHash, PayloadId(payloadHash), None, false));
  }

  /******* Initiation *******/

  // A request whose key the buyer has used: another payload is a conflict, a failed
  // initiation is tried again, anything else is only logged.
  lemma UsedKeyInitiates(db: PayTables, o: InitiationRequest, id: nat)
    requires IntentsDistinct(db.intents) && id < |db.intents|
    requires db.intents[id].buyerUserId == o.buyerUserId && db.intents[id].keyHash == o.keyHash
    ensures var (db', out) := BeginInitiation(db, o); var i := db.intents[id];
            && (out == Err(IdempotencyConflict) <==> i.fingerprint != o.fingerprint)
            && (out == Ok(Retry(id)) <==> i.fingerprint == o.fingerprint && i.status == InitiationFailed)
            && (out == Ok(ReturnExisting(id)) <==> i.fingerprint == o.fingerprint && i.status != InitiationFailed)
            && db' == db.(audits := db.audits + if out.Ok? && i.status != InitiationFailed
                                                then [IntentAudit(id, InitiationReplay)] else [])
  {
    assert FindByKey(db.intents, o.buyerUserId, o.keyHash) == Some(id);
  }

  // A first request inserts an intent made from it, unless another intent already
  // has the reference that its key is cut to.
  lemma FreshKeyInitiates(db: PayTables, o: InitiationRequest)
    requires forall i :: 0 <= i < |db.intents| ==>
               db.intents[i].buyerUserId != o.buyerUserId || db.intents[i].keyHash != o.keyHash
    ensures var (db', out) := BeginInitiation(db, o);
            if exists i :: 0 <= i < |db.intents| && db.intents[i].providerReference == o.keyHash.head
            then out == Err(UniqueViolation) && db' == db
            else
              && out == Ok(CallProvider(|db.intents|)) && db'.events == db.events
              && |db'.intents| == |db.intents| + 1 && db'.intents[..|db.intents|] == db.intents
              && db'.audits == db.audits + [IntentAudit(|db.intents|, InitiationRequested)]
              && var i := db'.intents[|db.intents|];
                 && i.buyerUserId == o.buyerUserId && i.organizerId == o.organizerId
                 && i.eventId == o.fingerprint.eventId && i.provider == o.fingerprint.provider
                 && i.amountMinor == o.amountMinor && i.currency == o.currency
                 && i.keyHash == o.keyHash && i.fingerprint == o.fingerprint
                 && i.providerReference == o.keyHash.head && i.status == InitiationPending
                 && i.initiatedAt.None? && i.verifiedAt.None? && i.failedAt.None? && i.failure.None?
                 && i.verifiedAmount.None? && i.verifiedCurrency.None?
  {
    assert FindByKey(db.intents, o.buyerUserId, o.keyHash).None?;
  }

  // Only a call to the provider, or a retry still to be written, stays in flight.
  lemma InitiateGoesOn(s: Pay, pid: nat, o: InitiationRequest)
    requires pid !in s.calls
    ensures var s' := Next(s, DoInitiate(pid, o)); var (db', out) := BeginInitiation(s.db, o);
            && s'.db == db' && s'.deliveries == s.deliveries
            && s'.calls == match out
                           case Err(_) => s.calls
                           case Ok(ReturnExisting(_)) => s.calls
                           case Ok(Retry(id)) => s.calls[pid := Retrying(id)]
                           case Ok(CallProvider(id)) => s.calls[pid := AtProvider(id)]
  {
  }

  // One row and one audit of it.
  ghost predicate WritesRow(db: PayTables, db': PayTables, id: nat, i': Intent, kind: AuditKind) {
    && id < |db.intents|
    && db' == db.(intents := db.intents[id := i'], audits := db.audits + [IntentAudit(id, kind)])
  }

  // What the calls in flight write, whatever status they find, and where they go on.
  lemma CallWrites(s: Pay, pid: nat, at: int, code: string, flag: bool)
    requires pid in s.calls && s.calls[pid].intentId < |s.db.intents|
    ensures var id := s.calls[pid].intentId; var i := s.db.intents[id];
            && (s.calls[pid].Retrying? ==>
                  var s' := Next(s, DoRetry(pid));
                  && WritesRow(s.db, s'.db, id, i.(status := InitiationPending, failure := None, failedAt := None),
                               InitiationRequested)
                  && s'.calls == s.calls[pid := AtProvider(id)])
            && (s.calls[pid].AtProvider? ==>
                  var s' := Next(s, DoProviderOk(pid, at, flag));
                  && WritesRow(s.db, s'.db, id,
                               i.(status := Initiated, initiatedAt := Some(at), verifiedAt := None, failure := None,
                                  failedAt := None, verifiedAmount := None, verifiedCurrency := None),
                               InitiationSucceeded)
                  && s'.calls == if flag then s.calls - {pid} else s.calls[pid := Unacknowledged(id)])
            && (s.calls[pid].AtProvider? || s.calls[pid].AfterPersistenceFailure? ==>
                  var s' := Next(s, DoRecordFailure(pid, at, code));
                  && WritesRow(s.db, s'.db, id,
                               i.(status := InitiationFailed, failure := Some(code), failedAt := Some(at)),
                               InitiationFailure)
                  && s'.calls == s.calls - {pid})
            && (s.calls[pid].AtProvider? || s.calls[pid].Unacknowledged? ==>
                  var s' := Next(s, DoPersistFailed(pid, at, flag));
                  && WritesRow(s.db, s'.db, id,
                               if flag
                               then i.(status := InitiationFailed, failedAt := Some(at),
                                       failure := Some("LOCAL_PERSISTENCE_FAILURE_AFTER_PROVIDER_SUCCESS"))
                               else i,
                               ProviderCreatedDbFailed)
                  && s'.calls == s.calls[pid := AfterPersistenceFailure(id)])
  {
    var id := s.calls[pid].intentId;
    assert s.db.intents[id := s.db.intents[id]] == s.db.intents;
  }
}
