// Terminal payment states: exactly when nothing can move them.
module PaymentTerminal {
  import opened Totals
  import opened Wrappers
  import opened Payments
  import opened PaymentProofs

  predicate Terminal(i: Intent) { i.status == Verified || i.status == IntentFailed }

  // No initiation of this intent is in flight: none has read it FAILED and still
  // has to write, and none is between its provider request and its last write.
  ghost predicate Quiescent(s: Pay, id: nat) {
    forall p :: p in s.calls ==> s.calls[p].intentId != id
  }

  // transition_verified and transition_failed audits of one intent
  function TransitionLogs(id: nat): IntentAudit -> int {
    (a: IntentAudit) => if a.intentId == id && (a.kind.TransitionVerified? || a.kind.TransitionFailed?) then 1 else 0
  }

  function TransitionCount(db: PayTables, id: nat): int { Total(db.audits, TransitionLogs(id)) }

  lemma LogCount(db: PayTables, intentId: nat, kind: AuditKind, id: nat)
    ensures TransitionCount(Log(db, intentId, kind), id)
            == TransitionCount(db, id) + TransitionLogs(id)(IntentAudit(intentId, kind))
  {
    TotalAppend(db.audits, IntentAudit(intentId, kind), TransitionLogs(id));
  }

  ghost predicate Unmoved(db: PayTables, db': PayTables, id: nat)
    requires id < |db.intents|
  {
    && id < |db'.intents| && db'.intents[id] == db.intents[id]
    && TransitionCount(db', id) == TransitionCount(db, id)
  }

  lemma BeginUnmoved(db: PayTables, o: InitiationRequest, id: nat)
    requires id < |db.intents| && Terminal(db.intents[id])
    ensures var (db', out) := BeginInitiation(db, o);
            Unmoved(db, db', id) && (out.Ok? && !out.value.ReturnExisting? ==> out.value.intentId != id)
  {
    var found := FindByKey(db.intents, o.buyerUserId, o.keyHash);
    if found.Some? {
      LogCount(db, found.value, InitiationReplay, id);
    } else {
      LogCount(db.(intents := db.intents + [NewIntent(o)]), |db.intents|, InitiationRequested, id);
    }
  }

  lemma TransitionUnmoved(
    db: PayTables, eventId: nat, i: nat, target: Target, amount: int, currency: string, at: int, id: nat)
    requires id < |db.intents| && Terminal(db.intents[id]) && eventId < |db.events| && i < |db.intents|
    ensures Unmoved(db, ApplyTerminalTransition(db, eventId, i, target, amount, currency, at), id)
  {
    if Open(db.intents[i]) {
      var k1 := if target == ToVerified then VerificationSucceeded else VerificationFailed;
      var k2 := if target == ToVerified then TransitionVerified else TransitionFailed;
      LogCount(db, i, k1, id);
      LogCount(Log(db, i, k1), i, k2, id);
      assert ApplyTerminalTransition(db, eventId, i, target, amount, currency, at).audits
             == Log(Log(db, i, k1), i, k2).audits;
    } else {
      var k := if db.intents[i].status == Verified && target == ToVerified
               then TransitionSkipped else TransitionRejected;
      LogCount(db, i, k, id);
    }
  }

  // It logs no transition of its own.
  ghost predicate PlainAction(action: Action) {
    && (action.Reject? && action.note.Some? ==>
          !action.note.value.TransitionVerified? && !action.note.value.TransitionFailed?)
    && (action.Process? ==> !action.kind.TransitionVerified? && !action.kind.TransitionFailed?)
  }

  lemma ConcludeUnmoved(db: PayTables, eventId: nat, found: Option<nat>, action: Action, at: int, id: nat)
    requires id < |db.intents| && Terminal(db.intents[id]) && eventId < |db.events| && Known(db, found)
    requires PlainAction(action)
    ensures Unmoved(db, Conclude(db, eventId, found, action, at), id)
  {
    match action
    case Transition(target, amount, currency) =>
      if found.Some? { TransitionUnmoved(db, eventId, found.value, target, amount, currency, at, id); }
    case Reject(note) => if note.Some? && found.Some? { LogCount(db, found.value, note.value, id); }
    case Process(kind) => if found.Some? { LogCount(db, found.value, kind, id); }
    case RecordError => if found.Some? { LogCount(db, found.value, VerificationFailed, id); }
  }

  // Only the pre-provider and provider checks put an action in flight.
  ghost predicate PlainActions(s: Pay) {
    forall h :: h in s.deliveries && s.deliveries[h].Concluding? ==> PlainAction(s.deliveries[h].action)
  }

  lemma StepKeepsPlain(s: Pay, step: PayStep)
    requires PlainActions(s)
    ensures PlainActions(Next(s, step))
  {
  }

  lemma CallStepUnmoved(s: Pay, step: PayStep, id: nat)
    requires id < |s.db.intents| && Quiescent(s, id)
    requires step.DoRetry? || step.DoProviderOk? || step.DoPersistFailed? || step.DoRecordFailure? || step.DoLoseCall?
    ensures Unmoved(s.db, Next(s, step).db, id) && Quiescent(Next(s, step), id)
  {
    if !step.DoLoseCall? && step.pid in s.calls {
      var i := s.calls[step.pid].intentId;
      LogCount(s.db, i, InitiationRequested, id);
      LogCount(s.db, i, InitiationSucceeded, id);
      LogCount(s.db, i, ProviderCreatedDbFailed, id);
      LogCount(s.db, i, InitiationFailure, id);
    }
  }

  lemma DuplicateUnmoved(s: Pay, hid: nat, id: nat)
    requires id < |s.db.intents| && Quiescent(s, id)
    ensures Unmoved(s.db, Next(s, DoLogDuplicate(hid)).db, id) && Quiescent(Next(s, DoLogDuplicate(hid)), id)
  {
    if hid in s.deliveries && s.deliveries[hid].Duplicated? && s.deliveries[hid].original < |s.db.events| {
      var Duplicated(original, found) := s.deliveries[hid];
      var known := if found.Some? then found else s.db.events[original].intentId;
      if known.Some? { LogCount(s.db, known.value, WebhookDuplicate, id); }
    }
  }

  lemma ClassifyUnmoved(s: Pay, hid: nat, id: nat)
    requires id < |s.db.intents| && Quiescent(s, id)
    ensures Unmoved(s.db, Next(s, DoClassify(hid)).db, id) && Quiescent(Next(s, DoClassify(hid)), id)
  {
    if hid in s.deliveries && s.deliveries[hid].Unclassified? && s.deliveries[hid].found.Some? {
      var f := s.deliveries[hid].found.value;
      LogCount(s.db, f, WebhookReceived, id);
      LogCount(Log(s.db, f, WebhookReceived), f, VerificationStarted, id);
    }
  }

  lemma DeliveryStepUnmoved(s: Pay, step: PayStep, id: nat)
    requires id < |s.db.intents| && Terminal(s.db.intents[id]) && Quiescent(s, id) && PlainActions(s)
    requires !step.DoInitiate? && !step.DoRetry? && !step.DoProviderOk? && !step.DoPersistFailed?
    requires !step.DoRecordFailure?
    requires !step.DoLoseCall? && !step.DoConclude?
    ensures Unmoved(s.db, Next(s, step).db, id) && Quiescent(Next(s, step), id)
  {
    match step
    case DoLogDuplicate(hid) => DuplicateUnmoved(s, hid, id);
    case DoClassify(hid) => ClassifyUnmoved(s, hid, id);
    case _ =>
  }

  lemma StepUnmoved(s: Pay, step: PayStep, id: nat)
    requires id < |s.db.intents| && Terminal(s.db.intents[id]) && Quiescent(s, id) && PlainActions(s)
    ensures Unmoved(s.db, Next(s, step).db, id) && Quiescent(Next(s, step), id)
  {
    match step
    case DoInitiate(pid, order) => BeginUnmoved(s.db, order, id);
    case DoRetry(_) => CallStepUnmoved(s, step, id);
    case DoProviderOk(_, _, _) => CallStepUnmoved(s, step, id);
    case DoPersistFailed(_, _, _) => CallStepUnmoved(s, step, id);
    case DoRecordFailure(_, _, _) => CallStepUnmoved(s, step, id);
    case DoLoseCall(_) => CallStepUnmoved(s, step, id);
    case DoConclude(hid, at) =>
      if hid in s.deliveries && s.deliveries[hid].Concluding? && s.deliveries[hid].eventId < |s.db.events|
         && Known(s.db, s.deliveries[hid].found)
      {
        var Concluding(eventId, found, action) := s.deliveries[hid];
        assert PlainAction(action);
        ConcludeUnmoved(s.db, eventId, found, action, at, id);
      }
    case _ => DeliveryStepUnmoved(s, step, id);
  }

  lemma {:induction false} QuiescentTerminalStays(s: Pay, steps: seq<PayStep>, id: nat)
    requires id < |s.db.intents| && Terminal(s.db.intents[id]) && Quiescent(s, id) && PlainActions(s)
    ensures Unmoved(s.db, Run(s, steps).db, id) && Quiescent(Run(s, steps), id) && PlainActions(Run(s, steps))
  {
    if |steps| != 0 {
      QuiescentTerminalStays(s, steps[..|steps| - 1], id);
      StepUnmoved(Run(s, steps[..|steps| - 1]), steps[|steps| - 1], id);
      StepKeepsPlain(Run(s, steps[..|steps| - 1]), steps[|steps| - 1]);
    }
  }

  lemma {:induction false} ReachablePlain(steps: seq<PayStep>)
    ensures PlainActions(Run(NO_PAYMENTS, steps))
  {
    if |steps| != 0 {
      ReachablePlain(steps[..|steps| - 1]);
      StepKeepsPlain(Run(NO_PAYMENTS, steps[..|steps| - 1]), steps[|steps| - 1]);
    }
  }

  // Some run changes the status of the intent or logs another transition for it.
  ghost predicate CanMove(s: Pay, id: nat)
    requires id < |s.db.intents|
  {
    exists steps: seq<PayStep> :: !Unmoved(s.db, Run(s, steps).db, id)
  }

  lemma RunOne(s: Pay, step: PayStep)
    ensures Run(s, [step]) == Next(s, step)
  {
    assert [step][..0] == [];
  }

  // A write that the call in flight may make next.
  function FinishCall(s: Pay, p: nat): PayStep
    requires p in s.calls
  {
    match s.calls[p]
    case Retrying(_) => DoRetry(p)
    case Unacknowledged(_) => DoPersistFailed(p, 0, true)
    case _ => DoRecordFailure(p, 0, "PAYMENT_PROVIDER_TIMEOUT")
  }

  lemma CallMoves(s: Pay, p: nat)
    requires p in s.calls && s.calls[p].intentId < |s.db.intents|
    ensures var id := s.calls[p].intentId; var t := Next(s, FinishCall(s, p));
            id < |t.db.intents| && !Terminal(t.db.intents[id])
  {
  }

  // A VERIFIED or FAILED intent of a reachable state is fixed for good, the whole
  // row and its transition audits, exactly when no initiation of it is in flight.
  lemma TerminalFixedIffQuiescent(past: seq<PayStep>, id: nat)
    requires var s := Run(NO_PAYMENTS, past); id < |s.db.intents| && Terminal(s.db.intents[id])
    ensures var s := Run(NO_PAYMENTS, past); !CanMove(s, id) <==> Quiescent(s, id)
  {
    var s := Run(NO_PAYMENTS, past);
    RunKeepsInv(NO_PAYMENTS, past);
    if Quiescent(s, id) {
      ReachablePlain(past);
      forall steps: seq<PayStep> ensures Unmoved(s.db, Run(s, steps).db, id) {
        QuiescentTerminalStays(s, steps, id);
      }
    } else {
      var p :| p in s.calls && s.calls[p].intentId == id;
      var step := FinishCall(s, p);
      CallMoves(s, p);
      RunOne(s, step);
      assert !Unmoved(s.db, Run(s, [step]).db, id);
    }
  }

  /******* A late initiation answer undoes a verification *******/

  function DeliverySteps(hid: nat, env: Envelope, answer: Answer, at: int): seq<PayStep> {
    [DoLookUp(hid, env), DoStore(hid), DoClassify(hid), DoAnswer(hid, answer), DoConclude(hid, at)]
  }

  lemma RunAppend(s: Pay, steps: seq<PayStep>, step: PayStep)
    ensures Run(s, steps + [step]) == Next(Run(s, steps), step)
  {
    assert (steps + [step])[..|steps|] == steps;
  }

  lemma RunDelivery(s: Pay, before: seq<PayStep>, hid: nat, env: Envelope, answer: Answer, at: int)
    ensures Run(s, before + DeliverySteps(hid, env, answer, at))
            == Next(Next(Next(Next(Next(Run(s, before), DoLookUp(hid, env)), DoStore(hid)), DoClassify(hid)),
                         DoAnswer(hid, answer)), DoConclude(hid, at))
  {
    var d := DeliverySteps(hid, env, answer, at);
    RunAppend(s, before, d[0]);
    RunAppend(s, before + [d[0]], d[1]);
    RunAppend(s, before + [d[0]] + [d[1]], d[2]);
    RunAppend(s, before + [d[0]] + [d[1]] + [d[2]], d[3]);
    RunAppend(s, before + [d[0]] + [d[1]] + [d[2]] + [d[3]], d[4]);
    assert before + d == before + [d[0]] + [d[1]] + [d[2]] + [d[3]] + [d[4]];
  }

  // No stored event has this payload or this event id.
  ghost predicate Unseen(events: seq<WebhookEvent>, env: Envelope) {
    forall e :: 0 <= e < |events| ==>
      events[e].provider != env.provider
      || (events[e].payloadHash != env.payloadHash && events[e].eventKey != env.eventKey)
  }

  lemma UnseenIffNotFound(events: seq<WebhookEvent>, env: Envelope)
    ensures Unseen(events, env) <==> FindDelivery(events, env.provider, env.payloadHash, env.eventKey).None?
  {
  }

  // A supported delivery about this intent, from its provider, that was not seen before.
  ghost predicate FirstDelivery(s: Pay, hid: nat, env: Envelope, id: nat) {
    && id < |s.db.intents| && hid !in s.deliveries
    && env.supported && env.reference == Some(s.db.intents[id].providerReference)
    && env.provider == s.db.intents[id].provider
    && Unseen(s.db.events, env)
  }

  function Confirmation(i: Intent): Answer {
    ProviderResult(i.providerReference, i.amountMinor, i.currency, OutcomeSuccess)
  }

  lemma LookUpAndStore(s: Pay, hid: nat, env: Envelope, id: nat)
    requires Inv(s) && FirstDelivery(s, hid, env, id)
    ensures var t := Next(Next(s, DoLookUp(hid, env)), DoStore(hid));
            && t.db == s.db.(events := s.db.events
                 + [WebhookEvent(env.provider, env.eventKey, env.payloadHash, Received, Some(id))])
            && t.calls == s.calls
            && t.deliveries == s.deliveries[hid := Unclassified(|s.db.events|, env, Some(id))]
  {
    assert FindByReference(s.db.intents, env.reference.value) == Some(id);
    UnseenIffNotFound(s.db.events, env);
    var s1 := Next(s, DoLookUp(hid, env));
    assert s1 == s.(deliveries := s.deliveries[hid := LookedUp(env, Some(id))]);
    assert Next(s1, DoStore(hid)).deliveries == s.deliveries[hid := Unclassified(|s.db.events|, env, Some(id))];
  }

  lemma ClassifyConfirming(t: Pay, hid: nat, env: Envelope, e: nat, id: nat)
    requires id < |t.db.intents| && hid in t.deliveries && t.deliveries[hid] == Unclassified(e, env, Some(id))
    requires env.supported && env.reference.Some? && env.provider == t.db.intents[id].provider
    ensures var u := Next(t, DoClassify(hid));
            && u.db.intents == t.db.intents && u.db.events == t.db.events && u.calls == t.calls
            && u.deliveries == t.deliveries[hid := Verifying(e, id)]
            && u.db.audits == t.db.audits + [IntentAudit(id, WebhookReceived), IntentAudit(id, VerificationStarted)]
            && TransitionCount(u.db, id) == TransitionCount(t.db, id)
  {
    LogCount(t.db, id, WebhookReceived, id);
    LogCount(Log(t.db, id, WebhookReceived), id, VerificationStarted, id);
  }

  lemma FirstThree(s: Pay, hid: nat, env: Envelope, id: nat)
    requires Inv(s) && FirstDelivery(s, hid, env, id)
    ensures var t := Next(Next(Next(s, DoLookUp(hid, env)), DoStore(hid)), DoClassify(hid));
            && t.db.intents == s.db.intents && t.calls == s.calls
            && t.db.events == s.db.events
                 + [WebhookEvent(env.provider, env.eventKey, env.payloadHash, Received, Some(id))]
            && t.deliveries == s.deliveries[hid := Verifying(|s.db.events|, id)]
            && t.db.audits == s.db.audits + [IntentAudit(id, WebhookReceived), IntentAudit(id, VerificationStarted)]
            && TransitionCount(t.db, id) == TransitionCount(s.db, id)
  {
    LookUpAndStore(s, hid, env, id);
    var s2 := Next(Next(s, DoLookUp(hid, env)), DoStore(hid));
    ClassifyConfirming(s2, hid, env, |s.db.events|, id);
    assert Next(s2, DoClassify(hid)).deliveries == s.deliveries[hid := Verifying(|s.db.events|, id)];
  }

  lemma LastTwo(t: Pay, hid: nat, e: nat, id: nat, at: int)
    requires id < |t.db.intents| && e < |t.db.events| && Open(t.db.intents[id])
    requires hid in t.deliveries && t.deliveries[hid] == Verifying(e, id)
    ensures var u := Next(Next(t, DoAnswer(hid, Confirmation(t.db.intents[id]))), DoConclude(hid, at));
            && |u.db.intents| == |t.db.intents| && u.db.intents[id].status == Verified
            && SameSnapshot(t.db.intents[id], u.db.intents[id])
            && u.calls == t.calls && u.deliveries == t.deliveries - {hid}
            && u.db.events == t.db.events[e := t.db.events[e].(status := EventVerified, intentId := Some(id))]
            && TransitionCount(u.db, id) == TransitionCount(t.db, id) + 1
  {
    var i := t.db.intents[id];
    var t1 := Next(t, DoAnswer(hid, Confirmation(i)));
    var action := Transition(ToVerified, i.amountMinor, i.currency);
    assert t1.deliveries[hid] == Concluding(e, Some(id), action);
    LogCount(t.db, id, VerificationSucceeded, id);
    LogCount(Log(t.db, id, VerificationSucceeded), id, TransitionVerified, id);
    var u := Next(t1, DoConclude(hid, at));
    assert u.db == ApplyTerminalTransition(t.db, e, id, ToVerified, i.amountMinor, i.currency, at);
    assert u.db.audits == Log(Log(t.db, id, VerificationSucceeded), id, TransitionVerified).audits;
  }

  // A first confirming delivery verifies an open intent, whatever else is in flight.
  lemma ConfirmingDeliveryVerifies(past: seq<PayStep>, hid: nat, env: Envelope, id: nat, at: int)
    requires var s := Run(NO_PAYMENTS, past); FirstDelivery(s, hid, env, id) && Open(s.db.intents[id])
    ensures var s := Run(NO_PAYMENTS, past);
            var u := Run(NO_PAYMENTS, past + DeliverySteps(hid, env, Confirmation(s.db.intents[id]), at));
            && |u.db.intents| == |s.db.intents| && u.db.intents[id].status == Verified
            && SameSnapshot(s.db.intents[id], u.db.intents[id])
            && u.calls == s.calls && u.deliveries == s.deliveries
            && |u.db.events| == |s.db.events| + 1
            && (forall e :: 0 <= e < |s.db.events| ==> u.db.events[e] == s.db.events[e])
            && u.db.events[|s.db.events|].provider == env.provider
            && u.db.events[|s.db.events|].eventKey == env.eventKey
            && u.db.events[|s.db.events|].payloadHash == env.payloadHash
            && TransitionCount(u.db, id) == TransitionCount(s.db, id) + 1
  {
    var s := Run(NO_PAYMENTS, past);
    RunKeepsInv(NO_PAYMENTS, past);
    RunDelivery(NO_PAYMENTS, past, hid, env, Confirmation(s.db.intents[id]), at);
    FirstThree(s, hid, env, id);
    var t := Next(Next(Next(s, DoLookUp(hid, env)), DoStore(hid)), DoClassify(hid));
    forall e | 0 <= e < |s.db.events| ensures t.db.events[e] == s.db.events[e] {
    }
    LastTwo(t, hid, |s.db.events|, id, at);
    assert t.deliveries - {hid} == s.deliveries;
  }

  const REQUEST := InitiationRequest(1, 2, KeyHash(7, 8), Fingerprint(3, PaystackProvider, None), 500, "GHS")

  function Hook(payloadHash: nat): Envelope {
    Envelope(PaystackProvider, payloadHash, PayloadId(payloadHash), Some(7), true)
  }

  const CONFIRMED := ProviderResult(7, 500, "GHS", OutcomeSuccess)

  function VerifiedInFlight(): seq<PayStep> {
    [DoInitiate(0, REQUEST)] + DeliverySteps(0, Hook(10), CONFIRMED, 1)
  }

  // One intent, verified once, while its initiation is still at the provider.
  ghost predicate VerifiedAtProvider(s: Pay) {
    && |s.db.intents| == 1 && SameSnapshot(NewIntent(REQUEST), s.db.intents[0]) && s.db.intents[0].status == Verified
    && s.calls == map[0 := AtProvider(0)] && s.deliveries == map[]
    && |s.db.events| == 1 && s.db.events[0].payloadHash == 10 && s.db.events[0].eventKey == PayloadId(10)
    && TransitionCount(s.db, 0) == 1
  }

  lemma InitiatedFresh(o: InitiationRequest)
    ensures var s := Next(NO_PAYMENTS, DoInitiate(0, o));
            && s.db.intents == [NewIntent(o)] && s.db.events == [] && TransitionCount(s.db, 0) == 0
            && s.calls == map[0 := AtProvider(0)] && s.deliveries == map[]
  {
    LogCount(NO_PAYMENTS.db.(intents := [NewIntent(o)]), 0, InitiationRequested, 0);
  }

  lemma FirstWebhook()
    ensures VerifiedAtProvider(Run(NO_PAYMENTS, VerifiedInFlight()))
  {
    var past := [DoInitiate(0, REQUEST)];
    RunOne(NO_PAYMENTS, past[0]);
    InitiatedFresh(REQUEST);
    ConfirmingDeliveryVerifies(past, 0, Hook(10), 0, 1);
  }

  lemma LateAnswer(s: Pay)
    requires VerifiedAtProvider(s)
    ensures var t := Next(s, DoProviderOk(0, 2, true));
            && |t.db.intents| == 1 && SameSnapshot(NewIntent(REQUEST), t.db.intents[0])
            && t.db.intents[0].status == Initiated && t.db.intents[0].verifiedAt == None
            && t.deliveries == map[] && TransitionCount(t.db, 0) == 1
            && Unseen(t.db.events, Hook(11))
  {
    LogCount(s.db, 0, InitiationSucceeded, 0);
    assert s.db.events[0].eventKey != PayloadId(11);
  }

  // The webhook verifies the intent while the initiation call is still out; its
  // answer then writes INITIATED over VERIFIED, and a second webhook verifies the
  // same intent again, with a second transition audit.
  lemma LateAnswerVerifiesTwice()
    ensures var s := Run(NO_PAYMENTS, VerifiedInFlight());
            |s.db.intents| == 1 && s.db.intents[0].status == Verified && TransitionCount(s.db, 0) == 1
    ensures var s := Run(NO_PAYMENTS, VerifiedInFlight() + [DoProviderOk(0, 2, true)]);
            |s.db.intents| == 1 && s.db.intents[0].status == Initiated && s.db.intents[0].verifiedAt == None
    ensures var s := Run(NO_PAYMENTS, VerifiedInFlight() + [DoProviderOk(0, 2, true)]
                                      + DeliverySteps(1, Hook(11), CONFIRMED, 3));
            |s.db.intents| == 1 && s.db.intents[0].status == Verified && TransitionCount(s.db, 0) == 2
  {
    FirstWebhook();
    LateAnswer(Run(NO_PAYMENTS, VerifiedInFlight()));
    RunAppend(NO_PAYMENTS, VerifiedInFlight(), DoProviderOk(0, 2, true));
    ConfirmingDeliveryVerifies(VerifiedInFlight() + [DoProviderOk(0, 2, true)], 1, Hook(11), 0, 3);
  }

  /******* A retry undoes a verification *******/

  const TIMED_OUT := "PAYMENT_PROVIDER_TIMEOUT"

  function Retries(o: InitiationRequest, code: string): seq<PayStep> {
    [DoInitiate(0, o), DoRecordFailure(0, 1, code), DoInitiate(1, o), DoInitiate(2, o), DoRetry(2),
     DoProviderOk(2, 2, true)]
  }

  lemma FailedOnce(o: InitiationRequest, code: string)
    ensures var s := Next(Next(NO_PAYMENTS, DoInitiate(0, o)), DoRecordFailure(0, 1, code));
            && s.db.intents == [MarkFailed(NewIntent(o), 1, code)] && s.db.events == []
            && s.calls == map[] && s.deliveries == map[]
  {
    InitiatedFresh(o);
    assert Next(Next(NO_PAYMENTS, DoInitiate(0, o)), DoRecordFailure(0, 1, code)).calls == map[];
  }

  lemma ReadsFailed(s: Pay, pid: nat, o: InitiationRequest, i: Intent)
    requires s.db.intents == [i] && i.status == InitiationFailed && pid !in s.calls
    requires i.buyerUserId == o.buyerUserId && i.keyHash == o.keyHash && i.fingerprint == o.fingerprint
    ensures Next(s, DoInitiate(pid, o)) == s.(calls := s.calls[pid := Retrying(0)])
  {
    assert FindByKey(s.db.intents, o.buyerUserId, o.keyHash) == Some(0);
  }

  lemma BothReadFailed(s: Pay, o: InitiationRequest, i: Intent)
    requires s.db.intents == [i] && i.status == InitiationFailed && s.calls == map[]
    requires i.buyerUserId == o.buyerUserId && i.keyHash == o.keyHash && i.fingerprint == o.fingerprint
    ensures Next(Next(s, DoInitiate(1, o)), DoInitiate(2, o)) == s.(calls := map[1 := Retrying(0), 2 := Retrying(0)])
  {
    ReadsFailed(s, 1, o, i);
    ReadsFailed(s.(calls := map[1 := Retrying(0)]), 2, o, i);
  }

  lemma OneRetried(s: Pay, i: Intent)
    requires s.db.intents == [i] && s.calls == map[1 := Retrying(0), 2 := Retrying(0)]
    ensures var t := Next(Next(s, DoRetry(2)), DoProviderOk(2, 2, true));
            && |t.db.intents| == 1 && SameSnapshot(i, t.db.intents[0])
            && t.db.intents[0].status == Initiated && t.db.events == s.db.events
            && t.calls == map[1 := Retrying(0)] && t.deliveries == s.deliveries
  {
    var s1 := Next(s, DoRetry(2));
    assert s1.calls == map[1 := Retrying(0), 2 := AtProvider(0)];
    assert Next(s1, DoProviderOk(2, 2, true)).calls == map[1 := Retrying(0)];
  }

  lemma RunSix(s: Pay, r: seq<PayStep>)
    requires |r| == 6
    ensures Run(s, r) == Next(Next(Next(Next(Next(Next(s, r[0]), r[1]), r[2]), r[3]), r[4]), r[5])
  {
    assert r[..5][..4] == r[..4] && r[..4][..3] == r[..3] && r[..3][..2] == r[..2] && r[..2][..1] == r[..1];
    assert r[..1][..0] == [];
    assert Run(s, r[..1]) == Next(s, r[0]);
    assert Run(s, r[..2]) == Next(Run(s, r[..1]), r[1]);
    assert Run(s, r[..3]) == Next(Run(s, r[..2]), r[2]);
    assert Run(s, r[..4]) == Next(Run(s, r[..3]), r[3]);
    assert Run(s, r[..5]) == Next(Run(s, r[..4]), r[4]);
  }

  lemma RetriedRun(o: InitiationRequest, code: string)
    ensures var s := Run(NO_PAYMENTS, Retries(o, code));
            && |s.db.intents| == 1 && SameSnapshot(NewIntent(o), s.db.intents[0])
            && s.db.intents[0].status == Initiated && s.db.events == []
            && s.calls == map[1 := Retrying(0)] && s.deliveries == map[]
  {
    var r := Retries(o, code);
    RunSix(NO_PAYMENTS, r);
    FailedOnce(o, code);
    var failed, s := MarkFailed(NewIntent(o), 1, code), Next(Next(NO_PAYMENTS, r[0]), r[1]);
    BothReadFailed(s, o, failed);
    OneRetried(s.(calls := map[1 := Retrying(0), 2 := Retrying(0)]), failed);
  }

  lemma RetryOverwrites(s: Pay)
    requires |s.db.intents| == 1 && s.calls == map[1 := Retrying(0)]
    ensures |Next(s, DoRetry(1)).db.intents| == 1
    ensures Next(s, DoRetry(1)).db.intents[0].status == InitiationPending
  {
  }

  // Two retries both read INITIATION_FAILED. One goes through and the payment is
  // verified; the other then writes INITIATION_PENDING over VERIFIED.
  lemma SecondRetryUndoesVerification()
    ensures var past := Retries(REQUEST, TIMED_OUT) + DeliverySteps(0, Hook(10), CONFIRMED, 3);
            var s, t := Run(NO_PAYMENTS, past), Run(NO_PAYMENTS, past + [DoRetry(1)]);
            && |s.db.intents| == 1 && s.db.intents[0].status == Verified
            && |t.db.intents| == 1 && t.db.intents[0].status == InitiationPending
  {
    var past := Retries(REQUEST, TIMED_OUT);
    RetriedRun(REQUEST, TIMED_OUT);
    ConfirmingDeliveryVerifies(past, 0, Hook(10), 0, 3);
    RetryOverwrites(Run(NO_PAYMENTS, past + DeliverySteps(0, Hook(10), CONFIRMED, 3)));
    RunAppend(NO_PAYMENTS, past + DeliverySteps(0, Hook(10), CONFIRMED, 3), DoRetry(1));
  }
}
