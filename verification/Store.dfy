// The committed contents of the checkout tables and what each transaction does
// to them. A row's id is its insertion index, so a new id is always fresh. A
// transaction that throws commits nothing: its function returns the same store
// with an Err.
module Store {
  import opened Totals
  import opened Wrappers

  datatype BucketKey = BucketKey(eventId: nat, ticketTypeId: nat)

  // reservedCount is a cache of the live reservations of the bucket.
  datatype Bucket = Bucket(capacityTotal: int, reservedCount: int, soldCount: int)

  datatype ReservationStatus = Held | Expired | Consumed | Cancelled

  datatype Reservation = Reservation(
    ownerUserId: nat,
    key: BucketKey,
    quantity: nat,
    status: ReservationStatus,
    expiresAt: int)

  datatype OrderStatus = Reserved | PaymentPending | Paid | Fulfilled | OrderFailed

  datatype Order = Order(
    userId: nat,
    eventId: nat,
    reservationId: Option<nat>,
    totalAmount: int,
    currency: string,
    status: OrderStatus)

  // The request hash is injective, so the request stands for its own hash.
  datatype Request = Request(idempotencyKey: string, reservationId: nat, totalAmount: int, currency: string)

  datatype IdempotencyKey = IdempotencyKey(actorUserId: nat, key: string)

  datatype IdempotencyRecord = IdempotencyRecord(requestHash: Request, responseBody: Option<OrderResponse>)

  datatype OrderResponse = OrderResponse(orderId: nat, status: OrderStatus)

  datatype Provider = Paystack | Momo

  datatype PaymentStatus = Initiated | Pending | Success | Failed | Reversed | Refunded

  datatype Payment = Payment(
    orderId: nat,
    provider: Provider,
    providerRef: string,
    status: PaymentStatus,
    amount: int)

  datatype Direction = Debit | Credit

  datatype LedgerEntry = LedgerEntry(
    orderId: nat,
    paymentId: nat,
    direction: Direction,
    amount: int,
    currency: string)

  datatype TicketRef = TicketRef(ticketSerial: string, publicReference: string)

  datatype Ticket = Ticket(ownerUserId: nat, orderId: nat, key: BucketKey, ref: TicketRef)

  datatype Audit =
    | InventoryReserved(reservationId: nat)
    | ReservationExpired(reservationId: nat)
    | OrderCreated(orderId: nat)
    | PaymentVerified(paymentId: nat)
    | TicketsIssued(orderId: nat, reservationId: nat, quantity: nat)

  // A release that has read its row, without a lock, and not yet written it. The
  // database clock of its transaction stays at its start.
  datatype PendingRelease = PendingRelease(id: nat, key: BucketKey, began: int)

  datatype Tables = Tables(
    now: int,
    buckets: map<BucketKey, Bucket>,
    reservations: seq<Reservation>,
    orders: seq<Order>,
    idempotency: map<IdempotencyKey, IdempotencyRecord>,
    payments: seq<Payment>,
    ledger: seq<LedgerEntry>,
    tickets: seq<Ticket>,
    audits: seq<Audit>,
    releases: map<nat, PendingRelease>)

  /******* Queries *******/

  // WHERE status = 'HELD' AND expires_at > NOW() for one bucket
  function LiveWeight(key: BucketKey, at: int): Reservation -> int {
    (r: Reservation) => if r.key == key && r.status == Held && r.expiresAt > at then r.quantity else 0
  }

  // getActiveReservationQuantity
  function LiveSum(rows: seq<Reservation>, key: BucketKey, at: int): int {
    Total(rows, LiveWeight(key, at))
  }

  predicate Stale(r: Reservation, at: int) {
    r.status == Held && r.expiresAt <= at
  }

  function SetStatus(rows: seq<Reservation>, id: nat, status: ReservationStatus): seq<Reservation>
    requires id < |rows|
  {
    rows[id := rows[id].(status := status)]
  }

  function Expire(rows: seq<Reservation>, ids: seq<nat>): (r: seq<Reservation>) {
    seq(|rows|, i requires 0 <= i < |rows| => if i in ids then rows[i].(status := Expired) else rows[i])
  }

  function SetReserved(buckets: map<BucketKey, Bucket>, key: BucketKey, count: int): map<BucketKey, Bucket>
    requires key in buckets
  {
    buckets[key := buckets[key].(reservedCount := count)]
  }

  /******* Reserve *******/

  function Max(a: int, b: int): int { if a < b then b else a }

  // floor(capacity * 0.05) is capacity / 20 for every integer capacity
  function TightThreshold(capacity: int): int { Max(capacity / 20, 50) }

  predicate IsTight(b: Bucket) {
    b.capacityTotal - b.reservedCount - b.soldCount <= TightThreshold(b.capacityTotal)
  }

  function AuthoritativeReserved(b: Bucket, live: int): int {
    if IsTight(b) then live else b.reservedCount
  }

  predicate Accepts(b: Bucket, live: int, quantity: int) {
    quantity <= b.capacityTotal - AuthoritativeReserved(b, live) - b.soldCount
  }

  // appNow is the clock of the process, s.now the clock of the database.
  function Reserve(s: Tables, appNow: int, actor: nat, key: BucketKey, quantity: int, holdTtlSeconds: int)
    : (Tables, Result<nat>)
  {
    if quantity <= 0 || holdTtlSeconds <= 0 then (s, Err(InvalidInput))
    else if key !in s.buckets then (s, Err(NotFound))
    else
      var b := s.buckets[key];
      var live := LiveSum(s.reservations, key, s.now);
      if !Accepts(b, live, quantity) then (s, Err(Unavailable))
      else
        var row := Reservation(actor, key, quantity, Held, appNow + holdTtlSeconds * 1000);
        var id := |s.reservations|;
        (s.(reservations := s.reservations + [row],
            buckets := SetReserved(s.buckets, key, AuthoritativeReserved(b, live) + quantity),
            audits := s.audits + [InventoryReserved(id)]),
         Ok(id))
  }

  /******* Release, reconcile, sweep *******/

  // requestNow is the caller's clock reading; it decides staleness here.
  function BeginRelease(s: Tables, pid: nat, id: nat, requestNow: int): (Tables, Result<bool>) {
    if pid in s.releases then (s, Err(InvalidInput))
    else if id >= |s.reservations| then (s, Err(NotFound))
    else
      var r := s.reservations[id];
      if !Stale(r, requestNow) then (s, Ok(false))
      else (s.(releases := s.releases[pid := PendingRelease(id, r.key, s.now)]), Ok(true))
  }

  // The row is written by id, whatever its status has become.
  function CommitRelease(s: Tables, pid: nat): (Tables, Result<bool>) {
    if pid !in s.releases then (s, Err(NotFound))
    else
      var p := s.releases[pid];
      var s1 := s.(releases := s.releases - {pid});
      if p.key !in s.buckets || p.id >= |s.reservations| then (s1, Err(NotFound))
      else
        (s1.(reservations := SetStatus(s.reservations, p.id, Expired),
             buckets := SetReserved(s.buckets, p.key, LiveSum(s.reservations, p.key, p.began))),
         Ok(true))
  }

  function Reconcile(s: Tables, key: BucketKey): (Tables, Result<bool>) {
    if key !in s.buckets then (s, Err(NotFound))
    else
      var live := LiveSum(s.reservations, key, s.now);
      (s.(buckets := SetReserved(s.buckets, key, live)), Ok(live != s.buckets[key].reservedCount))
  }

  // The rows claimExpiredHeldReservations may lock for one sweep.
  predicate IsClaim(s: Tables, claim: seq<nat>) {
    && (forall i :: 0 <= i < |claim| ==> claim[i] < |s.reservations| && Stale(s.reservations[claim[i]], s.now))
    && (forall i, j :: 0 <= i < j < |claim| ==> claim[i] != claim[j])
  }

  predicate Touches(rows: seq<Reservation>, claim: seq<nat>, key: BucketKey) {
    exists i :: 0 <= i < |claim| && claim[i] < |rows| && rows[claim[i]].key == key
  }

  function ExpiredAudits(claim: seq<nat>): seq<Audit> {
    seq(|claim|, i requires 0 <= i < |claim| => ReservationExpired(claim[i]))
  }

  function Sweep(s: Tables, claim: seq<nat>): (Tables, Result<seq<nat>>) {
    if exists i :: 0 <= i < |claim| && claim[i] < |s.reservations| && s.reservations[claim[i]].key !in s.buckets
    then (s, Err(NotFound))
    else
      var rows := Expire(s.reservations, claim);
      (s.(reservations := rows,
          buckets := map k | k in s.buckets ::
            if Touches(s.reservations, claim, k)
            then s.buckets[k].(reservedCount := LiveSum(rows, k, s.now))
            else s.buckets[k],
          audits := s.audits + ExpiredAudits(claim)),
       Ok(claim))
  }

  /******* Create order *******/

  function CreateOrder(s: Tables, appNow: int, actor: nat, req: Request, checkoutAllowed: bool)
    : (Tables, Result<OrderResponse>)
  {
    var key := IdempotencyKey(actor, req.idempotencyKey);
    if key in s.idempotency && s.idempotency[key].requestHash != req then (s, Err(IdempotencyConflict))
    else if req.reservationId >= |s.reservations| then (s, Err(NotFound))
    else
      var r := s.reservations[req.reservationId];
      if r.ownerUserId != actor then (s, Err(NotFound))
      else if r.status != Held || r.expiresAt <= appNow then (s, Err(InvalidState))
      else if !checkoutAllowed then (s, Err(InvalidState))
      else if key in s.idempotency then
        match s.idempotency[key].responseBody
        case None => (s, Err(IdempotencyConflict))
        case Some(body) => (s, Ok(body))
      else
        var id := |s.orders|;
        var response := OrderResponse(id, Reserved);
        (s.(orders := s.orders
              + [Order(actor, r.key.eventId, Some(req.reservationId), req.totalAmount, req.currency, Reserved)],
            idempotency := s.idempotency[key := IdempotencyRecord(req, Some(response))],
            audits := s.audits + [OrderCreated(id)]),
         Ok(response))
  }

  /******* Verify payment *******/

  datatype Verification = Verification(status: ProviderStatus, amountMinor: int, currency: string)

  datatype ProviderStatus = ProviderSuccess | ProviderFailed | ProviderPending | ProviderReversed | ProviderRefunded

  function MapProviderStatus(p: ProviderStatus): PaymentStatus {
    match p
    case ProviderSuccess => Success
    case ProviderFailed => Failed
    case ProviderReversed => Reversed
    case ProviderRefunded => Refunded
    case ProviderPending => Pending
  }

  function MapOrderStatus(p: PaymentStatus): OrderStatus {
    match p
    case Success => Paid
    case Pending => PaymentPending
    case _ => OrderFailed
  }

  predicate Settled(p: PaymentStatus) { p.Success? || p.Refunded? || p.Reversed? }

  function FindPayment(payments: seq<Payment>, provider: Provider, ref: string): (id: Option<nat>)
    ensures id.Some? ==> id.value < |payments|
                         && payments[id.value].provider == provider && payments[id.value].providerRef == ref
    ensures id.None? ==>
              forall i :: 0 <= i < |payments| ==> payments[i].provider != provider || payments[i].providerRef != ref
  {
    if |payments| == 0 then None
    else
      var n := |payments| - 1;
      if payments[n].provider == provider && payments[n].providerRef == ref then Some(n)
      else FindPayment(payments[..n], provider, ref)
  }

  function VerifyPayment(
    s: Tables, provider: Provider, ref: string, verifiedSuccess: bool, verifiedCurrency: string, v: Verification)
    : (Tables, Result<PaymentStatus>)
  {
    if v.currency != verifiedCurrency || (verifiedSuccess && v.status != ProviderSuccess) then (s, Err(InvalidState))
    else
      match FindPayment(s.payments, provider, ref)
      case None => (s, Err(NotFound))
      case Some(id) =>
        var p := s.payments[id];
        if Settled(p.status) then (s, Err(AlreadyProcessed))
        else if p.orderId >= |s.orders| then (s, Err(NotFound))
        else
          var o := s.orders[p.orderId];
          if v.amountMinor != p.amount || v.currency != o.currency then (s, Err(InvalidState))
          else
            var next := MapProviderStatus(v.status);
            (s.(payments := s.payments[id := p.(status := next)],
                orders := s.orders[p.orderId := o.(status := MapOrderStatus(next))],
                ledger := if next == Success
                          then s.ledger + [LedgerEntry(p.orderId, id, Credit, v.amountMinor, v.currency)]
                          else s.ledger,
                audits := s.audits + [PaymentVerified(id)]),
             Ok(next))
  }

  // A payment row enters unsettled, with a provider reference of its own.
  function AddPayment(s: Tables, p: Payment): Tables {
    if p.orderId < |s.orders| && (p.status.Initiated? || p.status.Pending?)
       && FindPayment(s.payments, p.provider, p.providerRef).None?
    then s.(payments := s.payments + [p])
    else s
  }

  /******* Issue tickets *******/

  function LoadValidated(s: Tables, orderId: nat): (r: Result<nat>)
    ensures r.Ok? ==> orderId < |s.orders| && r.value < |s.reservations|
                      && s.orders[orderId].status == Paid && s.orders[orderId].reservationId == Some(r.value)
                      && s.reservations[r.value].status == Held
  {
    if orderId >= |s.orders| then Err(NotFound)
    else
      var o := s.orders[orderId];
      if o.status != Paid || o.reservationId.None? then Err(InvalidState)
      else if o.reservationId.value >= |s.reservations| then Err(NotFound)
      else if s.reservations[o.reservationId.value].status != Held then Err(InvalidState)
      else Ok(o.reservationId.value)
  }

  predicate Collides(t: Ticket, ref: TicketRef) {
    t.ref.ticketSerial == ref.ticketSerial || t.ref.publicReference == ref.publicReference
  }

  // The unique indexes on ticket_serial and public_reference accept the batch.
  predicate FreshRefs(tickets: seq<Ticket>, refs: seq<TicketRef>) {
    && (forall i, j :: 0 <= i < |refs| && 0 <= j < |tickets| ==> !Collides(tickets[j], refs[i]))
    && (forall i, j :: 0 <= i < j < |refs| ==>
          refs[i].ticketSerial != refs[j].ticketSerial && refs[i].publicReference != refs[j].publicReference)
  }

  function NewTickets(o: Order, orderId: nat, r: Reservation, refs: seq<TicketRef>): (ts: seq<Ticket>)
    ensures |ts| == |refs|
  {
    seq(|refs|, i requires 0 <= i < |refs| =>
      Ticket(o.userId, orderId, BucketKey(o.eventId, r.key.ticketTypeId), refs[i]))
  }

  function Issue(s: Tables, orderId: nat, refs: seq<TicketRef>): (Tables, Result<nat>) {
    match LoadValidated(s, orderId)
    case Err(e) => (s, Err(e))
    case Ok(rid) =>
      var o, r := s.orders[orderId], s.reservations[rid];
      if r.quantity != |refs| then (s, Err(InvalidState))
      else if r.key !in s.buckets then (s, Err(NotFound))
      else if !FreshRefs(s.tickets, refs) then (s, Err(UniqueViolation))
      else
        var rows := SetStatus(s.reservations, rid, Consumed);
        var b := s.buckets[r.key];
        (s.(tickets := s.tickets + NewTickets(o, orderId, r, refs),
            reservations := rows,
            buckets := s.buckets[r.key := b.(reservedCount := LiveSum(rows, r.key, s.now),
                                             soldCount := b.soldCount + r.quantity)],
            orders := s.orders[orderId := o.(status := Fulfilled)],
            audits := s.audits + [TicketsIssued(orderId, rid, r.quantity)]),
         Ok(rid))
  }

  /******* Runs *******/

  // A transaction sees the database clock of its start. One that waits for a bucket
  // lock commits later than that: its step runs on a clock that lies behind.
  function Behind(s: Tables, lag: nat): Tables { s.(now := s.now - lag) }

  function AtClock(s: Tables, now: int): Tables { s.(now := now) }

  datatype Step =
    | StepReserve(lag: nat, appNow: int, actor: nat, key: BucketKey, quantity: int, holdTtlSeconds: int)
    | StepBeginRelease(pid: nat, id: nat, requestNow: int)
    | StepCommitRelease(pid: nat)
    | StepDropRelease(pid: nat)
    | StepReconcile(lag: nat, key: BucketKey)
    | StepSweep(lag: nat, claim: seq<nat>)
    | StepCreateOrder(appNow: int, actor: nat, req: Request, checkoutAllowed: bool)
    | StepAddPayment(payment: Payment)
    | StepVerifyPayment(provider: Provider, ref: string, verifiedSuccess: bool, verifiedCurrency: string,
                        verification: Verification)
    | StepIssue(lag: nat, orderId: nat, refs: seq<TicketRef>)
    | StepAdvance(elapsed: nat)

  function Next(s: Tables, step: Step): Tables {
    match step
    case StepReserve(lag, appNow, actor, key, quantity, ttl) =>
      AtClock(Reserve(Behind(s, lag), appNow, actor, key, quantity, ttl).0, s.now)
    case StepBeginRelease(pid, id, requestNow) => BeginRelease(s, pid, id, requestNow).0
    case StepCommitRelease(pid) => CommitRelease(s, pid).0
    case StepDropRelease(pid) => s.(releases := s.releases - {pid})
    case StepReconcile(lag, key) => AtClock(Reconcile(Behind(s, lag), key).0, s.now)
    case StepSweep(lag, claim) =>
      if IsClaim(Behind(s, lag), claim) then AtClock(Sweep(Behind(s, lag), claim).0, s.now) else s
    case StepCreateOrder(appNow, actor, req, allowed) => CreateOrder(s, appNow, actor, req, allowed).0
    case StepAddPayment(p) => AddPayment(s, p)
    case StepVerifyPayment(provider, ref, success, currency, v) =>
      VerifyPayment(s, provider, ref, success, currency, v).0
    case StepIssue(lag, orderId, refs) => AtClock(Issue(Behind(s, lag), orderId, refs).0, s.now)
    case StepAdvance(elapsed) => s.(now := s.now + elapsed)
  }

  function Run(s: Tables, steps: seq<Step>): Tables {
    if |steps| == 0 then s else Next(Run(s, steps[..|steps| - 1]), steps[|steps| - 1])
  }

  // Nothing sold, nothing reserved, no rows yet.
  predicate Initial(s: Tables) {
    && (forall k :: k in s.buckets ==>
          s.buckets[k].capacityTotal >= 0 && s.buckets[k].reservedCount == 0 && s.buckets[k].soldCount == 0)
    && s.reservations == [] && s.orders == [] && s.idempotency == map[] && s.payments == []
    && s.ledger == [] && s.tickets == [] && s.audits == [] && s.releases == map[]
  }
}
