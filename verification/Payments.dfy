// Payment intents and provider webhooks: the rows, the transactions on them, and
// the calls and deliveries that are in flight between two transactions.
module Payments {
  import opened Wrappers

  datatype PaymentProvider = PaystackProvider | MomoProvider

  datatype IntentStatus = InitiationPending | Initiated | InitiationFailed | Verified | IntentFailed

  // A key hash and the leading part of it that becomes the provider reference.
  datatype KeyHash = KeyHash(head: nat, rest: nat)

  datatype Fingerprint = Fingerprint(eventId: nat, provider: PaymentProvider, phone: Option<string>)

  // failure stands for failureCode and failureMessage, always written together.
  datatype Intent = Intent(
    buyerUserId: nat,
    organizerId: nat,
    eventId: nat,
    provider: PaymentProvider,
    amountMinor: int,
    currency: string,
    keyHash: KeyHash,
    fingerprint: Fingerprint,
    providerReference: nat,
    status: IntentStatus,
    initiatedAt: Option<int>,
    verifiedAt: Option<int>,
    failedAt: Option<int>,
    failure: Option<string>,
    verifiedAmount: Option<int>,
    verifiedCurrency: Option<string>)

  datatype AuditKind =
    | InitiationRequested | InitiationReplay | InitiationSucceeded | InitiationFailure | ProviderCreatedDbFailed
    | WebhookReceived | WebhookDuplicate | UnsupportedIgnored
    | VerificationStarted | ProviderMismatch | ReferenceMismatch | AmountMismatch | CurrencyMismatch
    | VerificationPending | VerificationSucceeded | VerificationFailed
    | TransitionVerified | TransitionFailed | TransitionSkipped | TransitionRejected

  datatype IntentAudit = IntentAudit(intentId: nat, kind: AuditKind)

  datatype ProcessingStatus = Received | EventVerified | EventRejected | EventProcessed | EventFailed

  // The provider's own event id, or the payload hash when it sends none.
  datatype EventKey = ProviderId(id: string) | PayloadId(hash: nat)

  datatype Envelope = Envelope(
    provider: PaymentProvider,
    payloadHash: nat,
    eventKey: EventKey,
    reference: Option<nat>,
    supported: bool)

  datatype WebhookEvent = WebhookEvent(
    provider: PaymentProvider,
    eventKey: EventKey,
    payloadHash: nat,
    status: ProcessingStatus,
    intentId: Option<nat>)

  datatype PayTables = PayTables(intents: seq<Intent>, events: seq<WebhookEvent>, audits: seq<IntentAudit>)

  /******* Row updates *******/

  function MarkRetryPending(i: Intent): Intent {
    i.(status := InitiationPending, failure := None, failedAt := None)
  }

  function MarkInitiated(i: Intent, at: int): Intent {
    i.(status := Initiated, initiatedAt := Some(at), verifiedAt := None, failure := None, failedAt := None,
       verifiedAmount := None, verifiedCurrency := None)
  }

  function MarkFailed(i: Intent, at: int, code: string): Intent {
    i.(status := InitiationFailed, failure := Some(code), failedAt := Some(at))
  }

  // The status guard of both webhook transitions.
  predicate Open(i: Intent) { i.status == Initiated || i.status == InitiationPending }

  datatype Target = ToVerified | ToFailed

  function Transitioned(i: Intent, target: Target, at: int, amount: int, currency: string): Intent {
    match target
    case ToVerified =>
      i.(status := Verified, verifiedAt := Some(at), failedAt := None, failure := None,
         verifiedAmount := Some(amount), verifiedCurrency := Some(currency))
    case ToFailed =>
      i.(status := IntentFailed, failedAt := Some(at), failure := Some("PROVIDER_PAYMENT_FAILED"),
         verifiedAmount := Some(amount), verifiedCurrency := Some(currency))
  }

  function Log(db: PayTables, intentId: nat, kind: AuditKind): PayTables {
    db.(audits := db.audits + [IntentAudit(intentId, kind)])
  }

  function LogIf(db: PayTables, intentId: Option<nat>, kind: AuditKind): PayTables {
    if intentId.Some? then Log(db, intentId.value, kind) else db
  }

  function SetIntent(db: PayTables, id: nat, i: Intent): PayTables
    requires id < |db.intents|
  {
    db.(intents := db.intents[id := i])
  }

  function SetEvent(db: PayTables, id: nat, status: ProcessingStatus, intentId: Option<nat>): PayTables
    requires id < |db.events|
  {
    db.(events := db.events[id := db.events[id].(status := status, intentId := intentId)])
  }

  /******* Lookups *******/

  function FindByKey(intents: seq<Intent>, buyer: nat, keyHash: KeyHash): (id: Option<nat>)
    ensures id.Some? ==> id.value < |intents| && intents[id.value].buyerUserId == buyer
                         && intents[id.value].keyHash == keyHash
    ensures id.None? ==>
              forall i :: 0 <= i < |intents| ==> intents[i].buyerUserId != buyer || intents[i].keyHash != keyHash
  {
    if |intents| == 0 then None
    else
      var n := |intents| - 1;
      if intents[n].buyerUserId == buyer && intents[n].keyHash == keyHash then Some(n)
      else FindByKey(intents[..n], buyer, keyHash)
  }

  function FindByReference(intents: seq<Intent>, reference: nat): (id: Option<nat>)
    ensures id.Some? ==> id.value < |intents| && intents[id.value].providerReference == reference
    ensures id.None? ==> forall i :: 0 <= i < |intents| ==> intents[i].providerReference != reference
  {
    if |intents| == 0 then None
    else
      var n := |intents| - 1;
      if intents[n].providerReference == reference then Some(n) else FindByReference(intents[..n], reference)
  }

  predicate SameDelivery(e: WebhookEvent, provider: PaymentProvider, payloadHash: nat, key: EventKey) {
    e.provider == provider && (e.payloadHash == payloadHash || e.eventKey == key)
  }

  function FindByPayload(events: seq<WebhookEvent>, provider: PaymentProvider, payloadHash: nat): (id: Option<nat>)
    ensures id.Some? ==> id.value < |events| && events[id.value].provider == provider
                         && events[id.value].payloadHash == payloadHash
    ensures id.None? ==>
              forall i :: 0 <= i < |events| ==> events[i].provider != provider || events[i].payloadHash != payloadHash
  {
    if |events| == 0 then None
    else
      var n := |events| - 1;
      if events[n].provider == provider && events[n].payloadHash == payloadHash then Some(n)
      else FindByPayload(events[..n], provider, payloadHash)
  }

  function FindByEventKey(events: seq<WebhookEvent>, provider: PaymentProvider, key: EventKey): (id: Option<nat>)
    ensures id.Some? ==> id.value < |events| && events[id.value].provider == provider
                         && events[id.value].eventKey == key
    ensures id.None? ==>
              forall i :: 0 <= i < |events| ==> events[i].provider != provider || events[i].eventKey != key
  {
    if |events| == 0 then None
    else
      var n := |events| - 1;
      if events[n].provider == provider && events[n].eventKey == key then Some(n)
      else FindByEventKey(events[..n], provider, key)
  }

  // The row a rejected insert ran into: by payload first, then by event id.
  function FindDelivery(events: seq<WebhookEvent>, provider: PaymentProvider, payloadHash: nat, key: EventKey)
    : (id: Option<nat>)
    ensures id.Some? ==> id.value < |events| && SameDelivery(events[id.value], provider, payloadHash, key)
    ensures id.None? ==>
              forall i :: 0 <= i < |events| ==> !SameDelivery(events[i], provider, payloadHash, key)
  {
    var samePayload := FindByPayload(events, provider, payloadHash);
    if samePayload.Some? then samePayload else FindByEventKey(events, provider, key)
  }

  /******* Initiation transactions *******/

  datatype InitiationRequest = InitiationRequest(
    buyerUserId: nat,
    organizerId: nat,
    keyHash: KeyHash,
    fingerprint: Fingerprint,
    amountMinor: int,
    currency: string)

  datatype InitiationAction = CallProvider(intentId: nat) | Retry(intentId: nat) | ReturnExisting(intentId: nat)

  function NewIntent(o: InitiationRequest): Intent {
    Intent(o.buyerUserId, o.organizerId, o.fingerprint.eventId, o.fingerprint.provider, o.amountMinor, o.currency,
           o.keyHash, o.fingerprint, o.keyHash.head, InitiationPending, None, None, None, None, None, None)
  }

  // What the first transaction reads and, for a new intent, inserts. A retry still
  // has to write. The reference is cut from the key hash alone, so it can collide
  // across buyers.
  function BeginInitiation(db: PayTables, o: InitiationRequest): (PayTables, Result<InitiationAction>) {
    match FindByKey(db.intents, o.buyerUserId, o.keyHash)
    case Some(id) =>
      var existing := db.intents[id];
      if existing.fingerprint != o.fingerprint then (db, Err(IdempotencyConflict))
      else if existing.status == InitiationFailed then
        (db, Ok(Retry(id)))
      else (Log(db, id, InitiationReplay), Ok(ReturnExisting(id)))
    case None =>
      if FindByReference(db.intents, o.keyHash.head).Some? then (db, Err(UniqueViolation))
      else
        var id := |db.intents|;
        (Log(db.(intents := db.intents + [NewIntent(o)]), id, InitiationRequested), Ok(CallProvider(id)))
  }

  // The retry writes whatever status it finds.
  function RetryInitiation(db: PayTables, id: nat): PayTables
    requires id < |db.intents|
  {
    Log(SetIntent(db, id, MarkRetryPending(db.intents[id])), id, InitiationRequested)
  }

  function PersistInitiated(db: PayTables, id: nat, at: int): PayTables
    requires id < |db.intents|
  {
    Log(SetIntent(db, id, MarkInitiated(db.intents[id], at)), id, InitiationSucceeded)
  }

  function RecordInitiationFailure(db: PayTables, id: nat, at: int, code: string): PayTables
    requires id < |db.intents|
  {
    Log(SetIntent(db, id, MarkFailed(db.intents[id], at, code)), id, InitiationFailure)
  }

  // recordProviderSuccessPersistenceFailure: when its own transaction fails too,
  // only the fallback audit remains.
  function RecordPersistenceFailure(db: PayTables, id: nat, at: int, recorded: bool): PayTables
    requires id < |db.intents|
  {
    Log(if recorded
        then SetIntent(db, id, MarkFailed(db.intents[id], at, "LOCAL_PERSISTENCE_FAILURE_AFTER_PROVIDER_SUCCESS"))
        else db,
        id, ProviderCreatedDbFailed)
  }

  /******* Webhook transactions *******/

  datatype Stored = Created(eventId: nat) | Existing(eventId: nat)

  function StoreEvent(db: PayTables, env: Envelope, intentId: Option<nat>): (PayTables, Stored) {
    match FindDelivery(db.events, env.provider, env.payloadHash, env.eventKey)
    case Some(id) => (db, Existing(id))
    case None =>
      (db.(events := db.events + [WebhookEvent(env.provider, env.eventKey, env.payloadHash, Received, intentId)]),
       Created(|db.events|))
  }

  function StoreBadSignature(db: PayTables, payloadHash: nat): PayTables {
    if FindDelivery(db.events, PaystackProvider, payloadHash, PayloadId(payloadHash)).Some? then db
    else db.(events := db.events
               + [WebhookEvent(PaystackProvider, PayloadId(payloadHash), payloadHash, EventRejected, None)])
  }

  // How a stored delivery ends.
  datatype Action =
    | Reject(note: Option<AuditKind>)
    | Process(kind: AuditKind)
    | RecordError
    | Transition(target: Target, amount: int, currency: string)

  datatype Answer =
    | ProviderError
    | ProviderResult(reference: nat, amountMinor: int, currency: string, outcome: Outcome)

  datatype Outcome = OutcomeSuccess | OutcomeFailed | OutcomePending

  // What the checks before the provider is asked decide; None asks the provider.
  function Classify(intents: seq<Intent>, env: Envelope, intentId: Option<nat>): Option<Action>
    requires intentId.Some? ==> intentId.value < |intents|
  {
    if !env.supported then Some(Process(UnsupportedIgnored))
    else if env.reference.None? || intentId.None? then Some(Reject(None))
    else if intents[intentId.value].provider != env.provider then Some(Reject(Some(ProviderMismatch)))
    else None
  }

  function Decide(i: Intent, answer: Answer): Action {
    match answer
    case ProviderError => RecordError
    case ProviderResult(reference, amount, currency, outcome) =>
      if reference != i.providerReference then Reject(Some(ReferenceMismatch))
      else if amount != i.amountMinor then Reject(Some(AmountMismatch))
      else if currency != i.currency then Reject(Some(CurrencyMismatch))
      else
        match outcome
        case OutcomeSuccess => Transition(ToVerified, amount, currency)
        case OutcomeFailed => Transition(ToFailed, amount, currency)
        case OutcomePending => Process(VerificationPending)
  }

  function ApplyTerminalTransition(
    db: PayTables, eventId: nat, id: nat, target: Target, amount: int, currency: string, at: int): PayTables
    requires eventId < |db.events| && id < |db.intents|
  {
    var i := db.intents[id];
    if Open(i) then
      var db1 := SetIntent(db, id, Transitioned(i, target, at, amount, currency));
      var db2 := Log(db1, id, if target == ToVerified then VerificationSucceeded else VerificationFailed);
      var db3 := Log(db2, id, if target == ToVerified then TransitionVerified else TransitionFailed);
      SetEvent(db3, eventId, EventVerified, Some(id))
    else
      var note := if i.status == Verified && target == ToVerified then TransitionSkipped else TransitionRejected;
      SetEvent(Log(db, id, note), eventId, EventProcessed, Some(id))
  }

  function Conclude(db: PayTables, eventId: nat, intentId: Option<nat>, action: Action, at: int): PayTables
    requires eventId < |db.events|
    requires intentId.Some? ==> intentId.value < |db.intents|
  {
    match action
    case Reject(note) =>
      var db1 := SetEvent(db, eventId, EventRejected, intentId);
      if note.Some? then LogIf(db1, intentId, note.value) else db1
    case Process(kind) => LogIf(SetEvent(db, eventId, EventProcessed, intentId), intentId, kind)
    case RecordError => LogIf(SetEvent(db, eventId, EventFailed, intentId), intentId, VerificationFailed)
    case Transition(target, amount, currency) =>
      if intentId.None? then db
      else ApplyTerminalTransition(db, eventId, intentId.value, target, amount, currency, at)
  }

  /******* In flight *******/

  // An initiation that has read a failed intent and not written it yet, or is
  // between its provider request and its last write. Unacknowledged: markInitiated
  // reached the row, and the caller was told it did not.
  datatype Call =
    | Retrying(intentId: nat)
    | AtProvider(intentId: nat)
    | Unacknowledged(intentId: nat)
    | AfterPersistenceFailure(intentId: nat)

  datatype Delivery =
    | LookedUp(env: Envelope, found: Option<nat>)
    | Duplicated(original: nat, found: Option<nat>)
    | Unclassified(eventId: nat, env: Envelope, found: Option<nat>)
    | Verifying(eventId: nat, intentId: nat)
    | Concluding(eventId: nat, found: Option<nat>, action: Action)

  datatype Pay = Pay(db: PayTables, calls: map<nat, Call>, deliveries: map<nat, Delivery>)

  datatype PayStep =
    | DoInitiate(pid: nat, order: InitiationRequest)
    | DoRetry(pid: nat)
    | DoProviderOk(pid: nat, at: int, acknowledged: bool)
    | DoPersistFailed(pid: nat, at: int, recorded: bool)
    | DoRecordFailure(pid: nat, at: int, code: string)
    | DoLoseCall(pid: nat)
    | DoBadSignature(payloadHash: nat)
    | DoLookUp(hid: nat, env: Envelope)
    | DoStore(hid: nat)
    | DoLogDuplicate(hid: nat)
    | DoClassify(hid: nat)
    | DoAnswer(hid: nat, answer: Answer)
    | DoConclude(hid: nat, at: int)
    | DoLoseDelivery(hid: nat)

  function Next(s: Pay, step: PayStep): Pay {
    match step
    case DoInitiate(pid, order) =>
      if pid in s.calls then s
      else
        var (db, out) := BeginInitiation(s.db, order);
        Pay(db,
            if out.Err? || out.value.ReturnExisting? then s.calls
            else s.calls[pid := if out.value.Retry? then Retrying(out.value.intentId)
                                else AtProvider(out.value.intentId)],
            s.deliveries)
    case DoRetry(pid) =>
      if pid in s.calls && s.calls[pid].Retrying? && s.calls[pid].intentId < |s.db.intents|
      then
        var id := s.calls[pid].intentId;
        Pay(RetryInitiation(s.db, id), s.calls[pid := AtProvider(id)], s.deliveries)
      else s
    case DoProviderOk(pid, at, acknowledged) =>
      if pid in s.calls && s.calls[pid].AtProvider? && s.calls[pid].intentId < |s.db.intents|
      then
        var id := s.calls[pid].intentId;
        Pay(PersistInitiated(s.db, id, at),
            if acknowledged then s.calls - {pid} else s.calls[pid := Unacknowledged(id)],
            s.deliveries)
      else s
    case DoPersistFailed(pid, at, recorded) =>
      if pid in s.calls && (s.calls[pid].AtProvider? || s.calls[pid].Unacknowledged?)
         && s.calls[pid].intentId < |s.db.intents|
      then
        var id := s.calls[pid].intentId;
        Pay(RecordPersistenceFailure(s.db, id, at, recorded), s.calls[pid := AfterPersistenceFailure(id)], s.deliveries)
      else s
    case DoRecordFailure(pid, at, code) =>
      if pid in s.calls && (s.calls[pid].AtProvider? || s.calls[pid].AfterPersistenceFailure?)
         && s.calls[pid].intentId < |s.db.intents|
      then Pay(RecordInitiationFailure(s.db, s.calls[pid].intentId, at, code), s.calls - {pid}, s.deliveries)
      else s
    case DoLoseCall(pid) => s.(calls := s.calls - {pid})
    case DoBadSignature(payloadHash) => s.(db := StoreBadSignature(s.db, payloadHash))
    case DoLookUp(hid, env) =>
      if hid in s.deliveries then s
      else
        var found := if env.reference.Some? then FindByReference(s.db.intents, env.reference.value) else None;
        s.(deliveries := s.deliveries[hid := LookedUp(env, found)])
    case DoStore(hid) =>
      if hid in s.deliveries && s.deliveries[hid].LookedUp? then
        var LookedUp(env, found) := s.deliveries[hid];
        var (db, stored) := StoreEvent(s.db, env, found);
        Pay(db, s.calls,
            s.deliveries[hid := if stored.Created? then Unclassified(stored.eventId, env, found)
                                else Duplicated(stored.eventId, found)])
      else s
    case DoLogDuplicate(hid) =>
      if hid in s.deliveries && s.deliveries[hid].Duplicated? && s.deliveries[hid].original < |s.db.events| then
        var Duplicated(original, found) := s.deliveries[hid];
        var known := if found.Some? then found else s.db.events[original].intentId;
        Pay(LogIf(s.db, known, WebhookDuplicate), s.calls, s.deliveries - {hid})
      else s
    case DoClassify(hid) =>
      if hid in s.deliveries && s.deliveries[hid].Unclassified?
         && (s.deliveries[hid].found.Some? ==> s.deliveries[hid].found.value < |s.db.intents|)
      then
        var Unclassified(eventId, env, found) := s.deliveries[hid];
        var action := Classify(s.db.intents, env, found);
        var db := LogIf(s.db, found, WebhookReceived);
        if action.Some? then Pay(db, s.calls, s.deliveries[hid := Concluding(eventId, found, action.value)])
        else if found.None? then s
        else Pay(Log(db, found.value, VerificationStarted), s.calls,
                 s.deliveries[hid := Verifying(eventId, found.value)])
      else s
    case DoAnswer(hid, answer) =>
      if hid in s.deliveries && s.deliveries[hid].Verifying? && s.deliveries[hid].intentId < |s.db.intents| then
        var Verifying(eventId, id) := s.deliveries[hid];
        s.(deliveries := s.deliveries[hid := Concluding(eventId, Some(id), Decide(s.db.intents[id], answer))])
      else s
    case DoConclude(hid, at) =>
      if hid in s.deliveries && s.deliveries[hid].Concluding? && s.deliveries[hid].eventId < |s.db.events|
         && (s.deliveries[hid].found.Some? ==> s.deliveries[hid].found.value < |s.db.intents|)
      then
        var Concluding(eventId, found, action) := s.deliveries[hid];
        Pay(Conclude(s.db, eventId, found, action, at), s.calls, s.deliveries - {hid})
      else s
    case DoLoseDelivery(hid) => s.(deliveries := s.deliveries - {hid})
  }

  function Run(s: Pay, steps: seq<PayStep>): Pay {
    if |steps| == 0 then s else Next(Run(s, steps[..|steps| - 1]), steps[|steps| - 1])
  }

  const NO_PAYMENTS := Pay(PayTables([], [], []), map[], map[])
}
