// Verified means matched, and deliveries settle once.
module PaymentProofs {
  import opened Wrappers
  import opened Payments

  /******* What never changes in an intent *******/

  ghost predicate SameSnapshot(i: Intent, j: Intent) {
    && j.buyerUserId == i.buyerUserId && j.organizerId == i.organizerId && j.eventId == i.eventId
    && j.provider == i.provider && j.amountMinor == i.amountMinor && j.currency == i.currency
    && j.keyHash == i.keyHash && j.fingerprint == i.fingerprint && j.providerReference == i.providerReference
  }

  ghost predicate Evolves(intents: seq<Intent>, intents': seq<Intent>) {
    && |intents| <= |intents'|
    && forall i :: 0 <= i < |intents| ==> SameSnapshot(intents[i], intents'[i])
  }

  // A verified intent carries the provider's amount and currency, equal to its
  // own snapshot, and no failure.
  ghost predicate Matched(i: Intent) {
    i.status == Verified ==>
      && i.verifiedAmount == Some(i.amountMinor)
      && i.verifiedCurrency == Some(i.currency)
      && i.verifiedAt.Some?
      && i.failure.None? && i.failedAt.None?
  }

  ghost predicate AllMatched(intents: seq<Intent>) {
    forall i :: 0 <= i < |intents| ==> Matched(intents[i])
  }

  // One intent per (buyer, key) and per provider reference.
  ghost predicate IntentsDistinct(intents: seq<Intent>) {
    forall i, j :: 0 <= i < j < |intents| ==>
      && intents[i].providerReference != intents[j].providerReference
      && (intents[i].buyerUserId != intents[j].buyerUserId || intents[i].keyHash != intents[j].keyHash)
  }

  /******* In-flight work refers to what it should *******/

  ghost predicate Known(db: PayTables, id: Option<nat>) { id.Some? ==> id.value < |db.intents| }

  // The stored event a delivery still has to settle.
  function Held(d: Delivery): Option<nat> {
    match d
    case Unclassified(eventId, _, _) => Some(eventId)
    case Verifying(eventId, _) => Some(eventId)
    case Concluding(eventId, _, _) => Some(eventId)
    case _ => None
  }

  ghost predicate ActionOk(db: PayTables, found: Option<nat>, action: Action) {
    action.Transition? ==>
      && found.Some? && found.value < |db.intents|
      && action.amount == db.intents[found.value].amountMinor
      && action.currency == db.intents[found.value].currency
  }

  ghost predicate DeliveryOk(db: PayTables, d: Delivery) {
    && (Held(d).Some? ==> Held(d).value < |db.events| && db.events[Held(d).value].status == Received)
    && match d
       case LookedUp(_, found) => Known(db, found)
       case Duplicated(original, found) => original < |db.events| && Known(db, found)
       case Unclassified(_, _, found) => Known(db, found)
       case Verifying(_, id) => id < |db.intents|
       case Concluding(_, found, action) => Known(db, found) && ActionOk(db, found, action)
  }

  ghost predicate EventsDistinct(events: seq<WebhookEvent>) {
    forall i, j :: 0 <= i < j < |events| ==>
      !SameDelivery(events[i], events[j].provider, events[j].payloadHash, events[j].eventKey)
  }

  ghost predicate DeliveriesOk(s: Pay) {
    && (forall h :: h in s.deliveries ==> DeliveryOk(s.db, s.deliveries[h]))
    && (forall g, h :: g in s.deliveries && h in s.deliveries && g != h && Held(s.deliveries[g]).Some? ==>
          Held(s.deliveries[g]) != Held(s.deliveries[h]))
  }

  ghost predicate CallsOk(s: Pay) {
    forall p :: p in s.calls ==> s.calls[p].intentId < |s.db.intents|
  }

  ghost predicate Inv(s: Pay) {
    && AllMatched(s.db.intents) && IntentsDistinct(s.db.intents)
    && EventsDistinct(s.db.events)
    && CallsOk(s) && DeliveriesOk(s)
  }

  /******* Events *******/

  // Every stored row keeps its identity, and its status moves only off RECEIVED.
  ghost predicate EventsSettle(events: seq<WebhookEvent>, events': seq<WebhookEvent>) {
    && |events| <= |events'|
    && forall e :: 0 <= e < |events| ==>
         && events'[e] == events[e].(status := events'[e].status, intentId := events'[e].intentId)
         && (events'[e] != events[e] ==> events[e].status == Received && events'[e].status != Received)
  }

  /******* Row effects of the transactions *******/

  lemma BeginInitiationEffect(db: PayTables, o: InitiationRequest)
    requires AllMatched(db.intents) && IntentsDistinct(db.intents)
    ensures var (db', out) := BeginInitiation(db, o);
            && db'.events == db.events && Evolves(db.intents, db'.intents)
            && AllMatched(db'.intents) && IntentsDistinct(db'.intents)
            && (out.Ok? ==> out.value.intentId < |db'.intents|)
  {
  }

  lemma SetIntentEffect(db: PayTables, id: nat, i: Intent)
    requires AllMatched(db.intents) && IntentsDistinct(db.intents)
    requires id < |db.intents| && SameSnapshot(db.intents[id], i) && Matched(i)
    ensures Evolves(db.intents, SetIntent(db, id, i).intents)
    ensures AllMatched(SetIntent(db, id, i).intents) && IntentsDistinct(SetIntent(db, id, i).intents)
  {
  }

  lemma TransitionEffect(
    db: PayTables, eventId: nat, id: nat, target: Target, amount: int, currency: string, at: int)
    requires AllMatched(db.intents) && IntentsDistinct(db.intents)
    requires eventId < |db.events| && id < |db.intents|
    requires amount == db.intents[id].amountMinor && currency == db.intents[id].currency
    ensures var db' := ApplyTerminalTransition(db, eventId, id, target, amount, currency, at);
            && Evolves(db.intents, db'.intents) && AllMatched(db'.intents) && IntentsDistinct(db'.intents)
            && db'.events == db.events[eventId := db'.events[eventId]]
            && db'.events[eventId].status != Received
            && db'.events[eventId] == db.events[eventId].(status := db'.events[eventId].status,
                                                          intentId := db'.events[eventId].intentId)
  {
    SetIntentEffect(db, id, Transitioned(db.intents[id], target, at, amount, currency));
  }

  lemma ConcludeEffect(db: PayTables, eventId: nat, found: Option<nat>, action: Action, at: int)
    requires AllMatched(db.intents) && IntentsDistinct(db.intents)
    requires eventId < |db.events| && Known(db, found) && ActionOk(db, found, action)
    ensures var db' := Conclude(db, eventId, found, action, at);
            && Evolves(db.intents, db'.intents) && AllMatched(db'.intents) && IntentsDistinct(db'.intents)
            && db'.events == db.events[eventId := db'.events[eventId]]
            && db'.events[eventId].status != Received
            && db'.events[eventId] == db.events[eventId].(status := db'.events[eventId].status,
                                                          intentId := db'.events[eventId].intentId)
  {
    if action.Transition? {
      TransitionEffect(db, eventId, found.value, action.target, action.amount, action.currency, at);
    }
  }

  /******* The invariant, step by step *******/

  lemma DeliveryStays(db: PayTables, db': PayTables, d: Delivery)
    requires DeliveryOk(db, d) && Evolves(db.intents, db'.intents) && |db.events| <= |db'.events|
    requires Held(d).Some? ==> db'.events[Held(d).value].status == Received
    ensures DeliveryOk(db', d)
  {
  }

  // All but one delivery carry over; the new one settles its own or a new event.
  lemma DeliveriesKept(s: Pay, s': Pay, hid: nat)
    requires DeliveriesOk(s) && Evolves(s.db.intents, s'.db.intents) && |s.db.events| <= |s'.db.events|
    requires forall h :: h in s'.deliveries && h != hid ==> h in s.deliveries && s'.deliveries[h] == s.deliveries[h]
    requires forall h :: h in s.deliveries && h != hid && Held(s.deliveries[h]).Some? ==>
               s'.db.events[Held(s.deliveries[h]).value].status == Received
    requires hid in s'.deliveries ==>
               && DeliveryOk(s'.db, s'.deliveries[hid])
               && (Held(s'.deliveries[hid]).Some? ==>
                     || Held(s'.deliveries[hid]).value >= |s.db.events|
                     || (hid in s.deliveries && Held(s'.deliveries[hid]) == Held(s.deliveries[hid])))
    ensures DeliveriesOk(s')
  {
    forall h | h in s'.deliveries ensures DeliveryOk(s'.db, s'.deliveries[h]) {
      if h != hid { DeliveryStays(s.db, s'.db, s.deliveries[h]); }
    }
    forall g, h | g in s'.deliveries && h in s'.deliveries && g != h && Held(s'.deliveries[g]).Some?
      ensures Held(s'.deliveries[g]) != Held(s'.deliveries[h])
    {
      if h != hid { assert DeliveryOk(s.db, s.deliveries[h]); }
      if g != hid { assert DeliveryOk(s.db, s.deliveries[g]); }
    }
  }

  lemma IntentStepKeepsInv(s: Pay, s': Pay)
    requires Inv(s) && s'.db.events == s.db.events && s'.deliveries == s.deliveries
    requires Evolves(s.db.intents, s'.db.intents) && AllMatched(s'.db.intents) && IntentsDistinct(s'.db.intents)
    requires CallsOk(s')
    ensures Inv(s') && EventsSettle(s.db.events, s'.db.events)
  {
    forall h | h in s'.deliveries ensures DeliveryOk(s'.db, s'.deliveries[h]) {
      DeliveryStays(s.db, s'.db, s.deliveries[h]);
    }
  }

  lemma InitiateKeepsInv(s: Pay, pid: nat, order: InitiationRequest)
    requires Inv(s)
    ensures Inv(Next(s, DoInitiate(pid, order)))
    ensures EventsSettle(s.db.events, Next(s, DoInitiate(pid, order)).db.events)
  {
    BeginInitiationEffect(s.db, order);
    IntentStepKeepsInv(s, Next(s, DoInitiate(pid, order)));
  }

  lemma CallStepKeepsInv(s: Pay, step: PayStep)
    requires Inv(s)
    requires step.DoRetry? || step.DoProviderOk? || step.DoPersistFailed? || step.DoRecordFailure? || step.DoLoseCall?
    ensures Inv(Next(s, step)) && EventsSettle(s.db.events, Next(s, step).db.events)
  {
    if !step.DoLoseCall? && step.pid in s.calls {
      var id := s.calls[step.pid].intentId;
      var i := s.db.intents[id];
      match step
      case DoRetry(_) => SetIntentEffect(s.db, id, MarkRetryPending(i));
      case DoProviderOk(_, at, _) => SetIntentEffect(s.db, id, MarkInitiated(i, at));
      case DoPersistFailed(_, at, _) =>
        SetIntentEffect(s.db, id, MarkFailed(i, at, "LOCAL_PERSISTENCE_FAILURE_AFTER_PROVIDER_SUCCESS"));
      case DoRecordFailure(_, at, code) => SetIntentEffect(s.db, id, MarkFailed(i, at, code));
      case _ =>
    }
    IntentStepKeepsInv(s, Next(s, step));
  }

  // Deliveries that touch no event row.
  predicate ReadStep(step: PayStep) {
    step.DoLookUp? || step.DoLogDuplicate? || step.DoAnswer? || step.DoLoseDelivery? || step.DoClassify?
  }

  lemma ReadStepEffect(s: Pay, step: PayStep)
    requires Inv(s) && ReadStep(step)
    ensures var s' := Next(s, step);
            && s'.db.events == s.db.events && s'.db.intents == s.db.intents && s'.calls == s.calls
            && (s'.deliveries == s.deliveries || s'.deliveries == s.deliveries - {step.hid}
                || (step.hid in s'.deliveries && s'.deliveries == s.deliveries[step.hid := s'.deliveries[step.hid]]
                    && DeliveryOk(s'.db, s'.deliveries[step.hid])
                    && (Held(s'.deliveries[step.hid]).Some? ==>
                          step.hid in s.deliveries && Held(s'.deliveries[step.hid]) == Held(s.deliveries[step.hid]))))
  {
    assert step.hid in s.deliveries ==> DeliveryOk(s.db, s.deliveries[step.hid]);
  }

  lemma ReadStepKeepsInv(s: Pay, step: PayStep)
    requires Inv(s) && ReadStep(step)
    ensures Inv(Next(s, step)) && EventsSettle(s.db.events, Next(s, step).db.events)
  {
    ReadStepEffect(s, step);
    var s' := Next(s, step);
    forall h | h in s.deliveries ensures DeliveryOk(s.db, s.deliveries[h]) && DeliveryOk(s'.db, s.deliveries[h]) {
      DeliveryStays(s.db, s'.db, s.deliveries[h]);
    }
  }

  lemma StoreKeepsInv(s: Pay, hid: nat)
    requires Inv(s)
    ensures Inv(Next(s, DoStore(hid))) && EventsSettle(s.db.events, Next(s, DoStore(hid)).db.events)
  {
    var s' := Next(s, DoStore(hid));
    forall h | h in s.deliveries ensures DeliveryOk(s.db, s.deliveries[h]) { }
    if hid in s.deliveries && s.deliveries[hid].LookedUp? {
      DeliveriesKept(s, s', hid);
    }
  }

  lemma BadSignatureKeepsInv(s: Pay, payloadHash: nat)
    requires Inv(s)
    ensures Inv(Next(s, DoBadSignature(payloadHash)))
    ensures EventsSettle(s.db.events, Next(s, DoBadSignature(payloadHash)).db.events)
  {
    var s' := Next(s, DoBadSignature(payloadHash));
    forall h | h in s'.deliveries ensures DeliveryOk(s'.db, s'.deliveries[h]) {
      DeliveryStays(s.db, s'.db, s.deliveries[h]);
    }
  }

  lemma ConcludeKeepsInv(s: Pay, hid: nat, at: int)
    requires Inv(s)
    ensures Inv(Next(s, DoConclude(hid, at))) && EventsSettle(s.db.events, Next(s, DoConclude(hid, at)).db.events)
  {
    var s' := Next(s, DoConclude(hid, at));
    if hid in s.deliveries && s.deliveries[hid].Concluding? {
      var Concluding(eventId, found, action) := s.deliveries[hid];
      assert DeliveryOk(s.db, s.deliveries[hid]);
      ConcludeEffect(s.db, eventId, found, action, at);
      forall h | h in s.deliveries && h != hid && Held(s.deliveries[h]).Some?
        ensures s'.db.events[Held(s.deliveries[h]).value].status == Received
      {
        assert DeliveryOk(s.db, s.deliveries[h]);
        assert Held(s.deliveries[h]) != Held(s.deliveries[hid]);
      }
      DeliveriesKept(s, s', hid);
    }
  }

  lemma StepKeepsInv(s: Pay, step: PayStep)
    requires Inv(s)
    ensures Inv(Next(s, step)) && EventsSettle(s.db.events, Next(s, step).db.events)
  {
    match step
    case DoInitiate(pid, order) => InitiateKeepsInv(s, pid, order);
    case DoRetry(_) => CallStepKeepsInv(s, step);
    case DoProviderOk(_, _, _) => CallStepKeepsInv(s, step);
    case DoPersistFailed(_, _, _) => CallStepKeepsInv(s, step);
    case DoRecordFailure(_, _, _) => CallStepKeepsInv(s, step);
    case DoLoseCall(_) => CallStepKeepsInv(s, step);
    case DoBadSignature(payloadHash) => BadSignatureKeepsInv(s, payloadHash);
    case DoStore(hid) => StoreKeepsInv(s, hid);
    case DoConclude(hid, at) => ConcludeKeepsInv(s, hid, at);
    case DoLookUp(_, _) => ReadStepKeepsInv(s, step);
    case DoLogDuplicate(_) => ReadStepKeepsInv(s, step);
    case DoClassify(_) => ReadStepKeepsInv(s, step);
    case DoAnswer(_, _) => ReadStepKeepsInv(s, step);
    case DoLoseDelivery(_) => ReadStepKeepsInv(s, step);
  }

  lemma {:induction false} RunKeepsInv(s: Pay, steps: seq<PayStep>)
    requires Inv(s)
    ensures Inv(Run(s, steps))
  {
    if |steps| != 0 {
      RunKeepsInv(s, steps[..|steps| - 1]);
      StepKeepsInv(Run(s, steps[..|steps| - 1]), steps[|steps| - 1]);
    }
  }

  // In every reachable state, whatever deliveries led there, a VERIFIED intent
  // matches its own amount and currency.
  lemma VerifiedMeansMatched(steps: seq<PayStep>, id: nat)
    ensures Inv(Run(NO_PAYMENTS, steps))
    ensures id < |Run(NO_PAYMENTS, steps).db.intents| ==> Matched(Run(NO_PAYMENTS, steps).db.intents[id])
  {
    RunKeepsInv(NO_PAYMENTS, steps);
  }

  // A stored event leaves RECEIVED at most once: a settled row never changes.
  lemma {:induction false} SettledEventForever(s: Pay, steps: seq<PayStep>, e: nat)
    requires Inv(s) && e < |s.db.events| && s.db.events[e].status != Received
    ensures e < |Run(s, steps).db.events| && Run(s, steps).db.events[e] == s.db.events[e]
  {
    if |steps| != 0 {
      var before := Run(s, steps[..|steps| - 1]);
      SettledEventForever(s, steps[..|steps| - 1], e);
      RunKeepsInv(s, steps[..|steps| - 1]);
      StepKeepsInv(before, steps[|steps| - 1]);
    }
  }

  // A delivery whose payload hash or event id is already stored creates no event
  // and can do nothing but log itself.
  lemma DuplicateDeliveryOnlyLogs(s: Pay, hid: nat)
    requires Inv(s) && hid in s.deliveries && s.deliveries[hid].LookedUp?
    requires var env := s.deliveries[hid].env;
             exists e :: 0 <= e < |s.db.events|
               && SameDelivery(s.db.events[e], env.provider, env.payloadHash, env.eventKey)
    ensures var s1 := Next(s, DoStore(hid));
            var s2 := Next(s1, DoLogDuplicate(hid));
            && s1.db == s.db && hid in s1.deliveries && s1.deliveries[hid].Duplicated?
            && s2.db.intents == s.db.intents && s2.db.events == s.db.events && hid !in s2.deliveries
            && |s.db.audits| <= |s2.db.audits| <= |s.db.audits| + 1
  {
    assert DeliveryOk(s.db, s.deliveries[hid]);
  }
}
