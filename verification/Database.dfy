// The transactions of the checkout pipeline as the services run them: rows are
// read and overwritten in sequence, loops visit one row at a time, and a
// transaction that throws leaves every table as it was.
module Database {
  import opened Store
  import opened Wrappers
  import opened Issuance
  import Inventory

  /******* Facts the loops need *******/

  // The bucket rows once a prefix of the claim has been swept.
  ghost function SweptBuckets(s: Tables, done: seq<nat>): map<BucketKey, Bucket> {
    map k | k in s.buckets ::
      if Touches(s.reservations, done, k)
      then s.buckets[k].(reservedCount := LiveSum(Expire(s.reservations, done), k, s.now))
      else s.buckets[k]
  }

  lemma ExpireOneMore(rows: seq<Reservation>, claim: seq<nat>, i: nat)
    requires i < |claim| && claim[i] < |rows|
    ensures var id, before := claim[i], Expire(rows, claim[..i]);
            && |before| == |rows| && before[id].key == rows[id].key
            && Expire(rows, claim[..i + 1]) == before[id := before[id].(status := Expired)]
    ensures claim[..i + 1] == claim[..i] + [claim[i]]
    ensures ExpiredAudits(claim[..i + 1]) == ExpiredAudits(claim[..i]) + [ReservationExpired(claim[i])]
  {
    assert claim[..i + 1] == claim[..i] + [claim[i]];
    assert forall j: nat :: j in claim[..i + 1] <==> j in claim[..i] || j == claim[i];
  }

  lemma SweptAll(s: Tables, claim: seq<nat>)
    requires IsClaim(s, claim)
    requires forall j :: 0 <= j < |claim| ==> s.reservations[claim[j]].key in s.buckets
    ensures claim[..|claim|] == claim
    ensures Sweep(s, claim)
            == (s.(reservations := Expire(s.reservations, claim), buckets := SweptBuckets(s, claim),
                   audits := s.audits + ExpiredAudits(claim)),
                Ok(claim))
  {
  }

  lemma TouchesOneMore(s: Tables, claim: seq<nat>, i: nat, k: BucketKey)
    requires i < |claim| && claim[i] < |s.reservations| && s.reservations[claim[i]].key != k
    ensures Touches(s.reservations, claim[..i + 1], k) <==> Touches(s.reservations, claim[..i], k)
  {
    var before, after := claim[..i], claim[..i + 1];
    if Touches(s.reservations, after, k) {
      var j :| 0 <= j < |after| && after[j] < |s.reservations| && s.reservations[after[j]].key == k;
      assert before[j] == after[j];
    }
    if Touches(s.reservations, before, k) {
      var j :| 0 <= j < |before| && before[j] < |s.reservations| && s.reservations[before[j]].key == k;
      assert before[j] == after[j];
    }
  }

  // Sweeping one more stale row refreshes its own bucket and no other sum.
  lemma SweptOneMore(s: Tables, claim: seq<nat>, i: nat)
    requires IsClaim(s, claim) && i < |claim| && s.reservations[claim[i]].key in s.buckets
    ensures var key := s.reservations[claim[i]].key;
            var rows := Expire(s.reservations, claim[..i + 1]);
            var b := SweptBuckets(s, claim[..i])[key];
            SweptBuckets(s, claim[..i + 1])
            == SweptBuckets(s, claim[..i])[key := b.(reservedCount := LiveSum(rows, key, s.now))]
  {
    var key := s.reservations[claim[i]].key;
    var before, after := claim[..i], claim[..i + 1];
    assert after[i] == claim[i];
    assert Touches(s.reservations, after, key);
    forall k | k in s.buckets && k != key
      ensures Touches(s.reservations, after, k) <==> Touches(s.reservations, before, k)
      ensures LiveSum(Expire(s.reservations, after), k, s.now) == LiveSum(Expire(s.reservations, before), k, s.now)
    {
      TouchesOneMore(s, claim, i, k);
      Inventory.LiveSumExpire(s.reservations, before, k, s.now);
      Inventory.LiveSumExpire(s.reservations, after, k, s.now);
    }
  }

  // Where the sweep stands before row i of its claim.
  ghost predicate SweptSoFar(
    s: Tables, claim: seq<nat>, i: nat, rows: seq<Reservation>, counts: map<BucketKey, Bucket>, log: seq<Audit>)
    requires i <= |claim|
  {
    && rows == Expire(s.reservations, claim[..i])
    && counts == SweptBuckets(s, claim[..i])
    && log == s.audits + ExpiredAudits(claim[..i])
    && (forall j :: 0 <= j < i ==> claim[j] < |s.reservations| && s.reservations[claim[j]].key in s.buckets)
  }

  // What the sweep does with row i, and where it stands then.
  lemma ClaimedRow(
    s: Tables, claim: seq<nat>, i: nat, rows: seq<Reservation>, counts: map<BucketKey, Bucket>, log: seq<Audit>)
    requires IsClaim(s, claim) && i < |claim| && SweptSoFar(s, claim, i, rows, counts, log)
    ensures var id := claim[i];
            && id < |rows| && (rows[id].key in counts <==> s.reservations[id].key in s.buckets)
            && claim[..i + 1] == claim[..i] + [id]
            && (rows[id].key in counts ==>
                  var key := rows[id].key;
                  var next := rows[id := rows[id].(status := Expired)];
                  SweptSoFar(s, claim, i + 1, next,
                             counts[key := counts[key].(reservedCount := LiveSum(next, key, s.now))],
                             log + [ReservationExpired(id)]))
  {
    ExpireOneMore(s.reservations, claim, i);
    if s.reservations[claim[i]].key in s.buckets {
      SweptOneMore(s, claim, i);
    }
  }

  lemma FreshOneMore(tickets: seq<Ticket>, refs: seq<TicketRef>, made: seq<Ticket>, i: nat)
    requires i < |refs| == |made| && FreshRefs(tickets, refs[..i])
    requires forall j :: 0 <= j < |refs| ==> made[j].ref == refs[j]
    ensures (forall j :: 0 <= j < |tickets + made[..i]| ==> !Collides((tickets + made[..i])[j], refs[i]))
            <==> FreshRefs(tickets, refs[..i + 1])
  {
    var rows, next := tickets + made[..i], refs[..i + 1];
    assert forall j :: 0 <= j < i ==> next[j] == refs[..i][j];
    if forall j :: 0 <= j < |rows| ==> !Collides(rows[j], refs[i]) {
      forall j | 0 <= j < |tickets| ensures !Collides(tickets[j], refs[i]) {
        assert rows[j] == tickets[j];
      }
      forall j | 0 <= j < i
        ensures refs[j].ticketSerial != refs[i].ticketSerial && refs[j].publicReference != refs[i].publicReference
      {
        assert rows[|tickets| + j] == made[j];
      }
    }
    if FreshRefs(tickets, next) {
      forall j | 0 <= j < |rows| ensures !Collides(rows[j], refs[i]) {
        assert next[i] == refs[i];
        if j < |tickets| {
          assert rows[j] == tickets[j];
        } else {
          assert rows[j] == made[j - |tickets|] && next[j - |tickets|] == refs[j - |tickets|];
        }
      }
    }
  }

  lemma FreshPrefix(tickets: seq<Ticket>, refs: seq<TicketRef>, n: nat)
    requires n <= |refs| && !FreshRefs(tickets, refs[..n])
    ensures !FreshRefs(tickets, refs)
  {
  }

  ghost predicate EarliestFirst(rows: seq<Reservation>, claim: seq<nat>)
    requires forall i :: 0 <= i < |claim| ==> claim[i] < |rows|
  {
    forall i, j :: 0 <= i < j < |claim| ==> rows[claim[i]].expiresAt <= rows[claim[j]].expiresAt
  }

  // No stale row that could have been claimed lapsed before a claimed one.
  ghost predicate NoneEarlierLeft(rows: seq<Reservation>, now: int, locked: set<nat>, claim: seq<nat>)
    requires forall i :: 0 <= i < |claim| ==> claim[i] < |rows|
  {
    forall r, i :: 0 <= r < |rows| && Stale(rows[r], now) && r !in locked && r !in claim && 0 <= i < |claim| ==>
      rows[claim[i]].expiresAt <= rows[r].expiresAt
  }

  class CheckoutTables {
    var now: int
    var buckets: map<BucketKey, Bucket>
    var reservations: seq<Reservation>
    var orders: seq<Order>
    var idempotency: map<IdempotencyKey, IdempotencyRecord>
    var payments: seq<Payment>
    var ledger: seq<LedgerEntry>
    var tickets: seq<Ticket>
    var audits: seq<Audit>
    // releases that have read their row and not written it yet
    var releases: map<nat, PendingRelease>

    ghost function View(): Tables
      reads this
    {
      Tables(now, buckets, reservations, orders, idempotency, payments, ledger, tickets, audits, releases)
    }

    constructor (at: int, inventory: map<BucketKey, Bucket>)
      ensures View() == Tables(at, inventory, [], [], map[], [], [], [], [], map[])
    {
      now := at;
      buckets := inventory;
      reservations, orders, idempotency, payments, ledger, tickets, audits := [], [], map[], [], [], [], [];
      releases := map[];
    }

    /******* Inventory *******/

    method UpdateReservedCount(key: BucketKey, count: int)
      requires key in buckets
      modifies this`buckets
      ensures buckets == SetReserved(old(buckets), key, count)
    {
      buckets := buckets[key := buckets[key].(reservedCount := count)];
    }

    method UpdateReservationStatus(id: nat, status: ReservationStatus)
      requires id < |reservations|
      modifies this`reservations
      ensures reservations == SetStatus(old(reservations), id, status)
    {
      reservations := reservations[id := reservations[id].(status := status)];
    }

    method ReserveInventory(appNow: int, actor: nat, key: BucketKey, quantity: int, holdTtlSeconds: int)
      returns (result: Result<nat>)
      modifies this
      ensures (View(), result) == Reserve(old(View()), appNow, actor, key, quantity, holdTtlSeconds)
    {
      if quantity <= 0 || holdTtlSeconds <= 0 {
        return Err(InvalidInput);
      }
      if key !in buckets {
        return Err(NotFound);
      }
      var inventory := buckets[key];
      var cachedAvailable := inventory.capacityTotal - inventory.reservedCount - inventory.soldCount;
      var isTight := cachedAvailable <= Max(inventory.capacityTotal / 20, 50);
      var authoritativeReserved := inventory.reservedCount;
      if isTight {
        authoritativeReserved := LiveSum(reservations, key, now);
      }
      var available := inventory.capacityTotal - authoritativeReserved - inventory.soldCount;
      if quantity > available {
        return Err(Unavailable);
      }
      var id := |reservations|;
      reservations := reservations + [Reservation(actor, key, quantity, Held, appNow + holdTtlSeconds * 1000)];
      UpdateReservedCount(key, authoritativeReserved + quantity);
      audits := audits + [InventoryReserved(id)];
      return Ok(id);
    }

    // What other requests commit while one of this object waits.
    method Interleave(steps: seq<Step>)
      modifies this
      ensures View() == Run(old(View()), steps)
    {
      var t := Run(Tables(now, buckets, reservations, orders, idempotency, payments, ledger, tickets, audits, releases),
                   steps);
      now, buckets, reservations, orders, idempotency := t.now, t.buckets, t.reservations, t.orders, t.idempotency;
      payments, ledger, tickets, audits, releases := t.payments, t.ledger, t.tickets, t.audits, t.releases;
    }

    method ReadStaleReservation(pid: nat, id: nat, requestNow: int) returns (result: Result<bool>)
      modifies this
      ensures (View(), result) == BeginRelease(old(View()), pid, id, requestNow)
    {
      if pid in releases {
        return Err(InvalidInput);
      }
      if id >= |reservations| {
        return Err(NotFound);
      }
      var reservation := reservations[id];
      if reservation.status != Held || reservation.expiresAt > requestNow {
        return Ok(false);
      }
      releases := releases[pid := PendingRelease(id, reservation.key, now)];
      return Ok(true);
    }

    method WriteExpired(pid: nat) returns (result: Result<bool>)
      modifies this
      ensures (View(), result) == CommitRelease(old(View()), pid)
    {
      if pid !in releases {
        return Err(NotFound);
      }
      var pending := releases[pid];
      releases := releases - {pid};
      if pending.key !in buckets || pending.id >= |reservations| {
        return Err(NotFound);
      }
      var liveReserved := LiveSum(reservations, pending.key, pending.began);
      UpdateReservationStatus(pending.id, Expired);
      UpdateReservedCount(pending.key, liveReserved);
      return Ok(true);
    }

    // The read takes no lock, so others may commit before the bucket is locked.
    method ReleaseExpiredReservation(pid: nat, id: nat, requestNow: int, others: seq<Step>)
      returns (result: Result<bool>)
      modifies this
      ensures var (s1, found) := BeginRelease(old(View()), pid, id, requestNow);
              (View(), result)
              == if found == Ok(true) then CommitRelease(Run(s1, others), pid) else (s1, found)
    {
      result := ReadStaleReservation(pid, id, requestNow);
      if result == Ok(true) {
        Interleave(others);
        result := WriteExpired(pid);
      }
    }

    method ReconcileInventoryDrift(key: BucketKey) returns (result: Result<bool>)
      modifies this
      ensures (View(), result) == Reconcile(old(View()), key)
    {
      if key !in buckets {
        return Err(NotFound);
      }
      var liveReserved := LiveSum(reservations, key, now);
      var corrected := liveReserved != buckets[key].reservedCount;
      if corrected {
        UpdateReservedCount(key, liveReserved);
      } else {
        assert buckets == SetReserved(buckets, key, liveReserved);
      }
      return Ok(corrected);
    }

    method EarliestUnclaimed(locked: set<nat>, claim: seq<nat>) returns (best: Option<nat>)
      ensures best.Some? ==>
                && best.value < |reservations| && Stale(reservations[best.value], now)
                && best.value !in locked && best.value !in claim
                && forall r :: 0 <= r < |reservations| && Stale(reservations[r], now) && r !in locked && r !in claim
                     ==> reservations[best.value].expiresAt <= reservations[r].expiresAt
      ensures best.None? ==>
                forall r :: 0 <= r < |reservations| && Stale(reservations[r], now) ==> r in locked || r in claim
    {
      best := None;
      for id := 0 to |reservations|
        invariant best.Some? ==>
                    && best.value < id && Stale(reservations[best.value], now)
                    && best.value !in locked && best.value !in claim
                    && forall r :: 0 <= r < id && Stale(reservations[r], now) && r !in locked && r !in claim
                         ==> reservations[best.value].expiresAt <= reservations[r].expiresAt
        invariant best.None? ==>
                    forall r :: 0 <= r < id && Stale(reservations[r], now) ==> r in locked || r in claim
      {
        var row := reservations[id];
        if Stale(row, now) && id !in locked && id !in claim
           && (best.None? || row.expiresAt < reservations[best.value].expiresAt)
        {
          best := Some(id);
        }
      }
    }

    // Earliest expiry first, at most limit rows, skipping rows others have locked.
    method ClaimExpiredHeldReservations(limit: nat, locked: set<nat>) returns (claim: seq<nat>)
      ensures IsClaim(View(), claim) && |claim| <= limit
      ensures forall i :: 0 <= i < |claim| ==> claim[i] !in locked
      ensures EarliestFirst(reservations, claim)
      ensures NoneEarlierLeft(reservations, now, locked, claim)
      ensures |claim| < limit ==>
                forall r :: 0 <= r < |reservations| && Stale(reservations[r], now) ==> r in locked || r in claim
    {
      claim := [];
      while |claim| < limit
        invariant IsClaim(View(), claim) && |claim| <= limit
        invariant forall i :: 0 <= i < |claim| ==> claim[i] !in locked
        invariant EarliestFirst(reservations, claim) && NoneEarlierLeft(reservations, now, locked, claim)
        decreases limit - |claim|
      {
        var best := EarliestUnclaimed(locked, claim);
        if best.None? {
          return;
        }
        claim := claim + [best.value];
      }
    }

    // The sweep recounts a bucket after each row it expires.
    method SweepExpiredReservations(claim: seq<nat>) returns (result: Result<seq<nat>>)
      requires IsClaim(View(), claim)
      modifies this
      ensures (View(), result) == Sweep(old(View()), claim)
    {
      var rows, counts, log := reservations, buckets, audits;
      var reservationIds: seq<nat> := [];
      for i := 0 to |claim|
        invariant View() == old(View()) && reservationIds == claim[..i]
        invariant SweptSoFar(old(View()), claim, i, rows, counts, log)
      {
        ClaimedRow(old(View()), claim, i, rows, counts, log);
        var id := claim[i];
        var key := rows[id].key;
        if key !in counts {
          return Err(NotFound);
        }
        rows := rows[id := rows[id].(status := Expired)];
        var liveReserved := LiveSum(rows, key, now);
        counts := counts[key := counts[key].(reservedCount := liveReserved)];
        log := log + [ReservationExpired(id)];
        reservationIds := reservationIds + [id];
      }
      SweptAll(View(), claim);
      reservations, buckets, audits := rows, counts, log;
      return Ok(reservationIds);
    }

    /******* Orders and payments *******/

    method CreateCheckoutOrder(appNow: int, actor: nat, req: Request, checkoutAllowed: bool)
      returns (result: Result<OrderResponse>)
      modifies this
      ensures (View(), result) == CreateOrder(old(View()), appNow, actor, req, checkoutAllowed)
    {
      var key := IdempotencyKey(actor, req.idempotencyKey);
      var keys := idempotency;
      var claimed := key !in keys;
      var existing: Option<IdempotencyRecord> := None;
      if claimed {
        keys := keys[key := IdempotencyRecord(req, None)];
      } else {
        existing := Some(keys[key]);
        if existing.value.requestHash != req {
          return Err(IdempotencyConflict);
        }
      }
      if req.reservationId >= |reservations| {
        return Err(NotFound);
      }
      var reservation := reservations[req.reservationId];
      if reservation.ownerUserId != actor {
        return Err(NotFound);
      }
      if reservation.status != Held || reservation.expiresAt <= appNow {
        return Err(InvalidState);
      }
      if !checkoutAllowed {
        return Err(InvalidState);
      }
      if existing.Some? {
        if existing.value.responseBody.None? {
          return Err(IdempotencyConflict);
        }
        return Ok(existing.value.responseBody.value);
      }
      var orderId := |orders|;
      var response := OrderResponse(orderId, Reserved);
      orders := orders + [Order(actor, reservation.key.eventId, Some(req.reservationId), req.totalAmount,
                                req.currency, Reserved)];
      idempotency := keys[key := keys[key].(responseBody := Some(response))];
      assert idempotency == old(idempotency)[key := IdempotencyRecord(req, Some(response))];
      audits := audits + [OrderCreated(orderId)];
      return Ok(response);
    }

    method VerifyProviderPayment(
      provider: Provider, ref: string, verifiedSuccess: bool, verifiedCurrency: string, verification: Verification)
      returns (result: Result<PaymentStatus>)
      modifies this
      ensures (View(), result)
              == VerifyPayment(old(View()), provider, ref, verifiedSuccess, verifiedCurrency, verification)
    {
      if verification.currency != verifiedCurrency {
        return Err(InvalidState);
      }
      if verifiedSuccess && verification.status != ProviderSuccess {
        return Err(InvalidState);
      }
      var found := FindPayment(payments, provider, ref);
      if found.None? {
        return Err(NotFound);
      }
      var payment := payments[found.value];
      if Settled(payment.status) {
        return Err(AlreadyProcessed);
      }
      if payment.orderId >= |orders| {
        return Err(NotFound);
      }
      var order := orders[payment.orderId];
      if verification.amountMinor != payment.amount || verification.currency != order.currency {
        return Err(InvalidState);
      }
      var newStatus := MapProviderStatus(verification.status);
      payments := payments[found.value := payment.(status := newStatus)];
      orders := orders[payment.orderId := order.(status := MapOrderStatus(newStatus))];
      if newStatus == Success {
        ledger := ledger
          + [LedgerEntry(payment.orderId, found.value, Credit, verification.amountMinor, verification.currency)];
      }
      audits := audits + [PaymentVerified(found.value)];
      return Ok(newStatus);
    }

    /******* Issuance *******/

    method LoadValidatedOrderReservation(orderId: nat) returns (result: Result<nat>)
      ensures result == LoadValidated(View(), orderId)
    {
      if orderId >= |orders| {
        return Err(NotFound);
      }
      var order := orders[orderId];
      if order.status != Paid {
        return Err(InvalidState);
      }
      if order.reservationId.None? {
        return Err(InvalidState);
      }
      var id := order.reservationId.value;
      if id >= |reservations| {
        return Err(NotFound);
      }
      if reservations[id].status != Held {
        return Err(InvalidState);
      }
      return Ok(id);
    }

    // A unique index rejects the insert.
    method InsertTicket(rows: seq<Ticket>, ticket: Ticket) returns (inserted: bool)
      ensures inserted <==> forall j :: 0 <= j < |rows| ==> !Collides(rows[j], ticket.ref)
    {
      for j := 0 to |rows|
        invariant forall k :: 0 <= k < j ==> !Collides(rows[k], ticket.ref)
      {
        if Collides(rows[j], ticket.ref) {
          return false;
        }
      }
      return true;
    }

    // All rows or none: a rejected insert ends the transaction.
    method InsertTickets(order: Order, orderId: nat, reservation: Reservation, refs: seq<TicketRef>)
      returns (inserted: bool)
      modifies this`tickets
      ensures inserted <==> FreshRefs(old(tickets), refs)
      ensures tickets == if inserted then old(tickets) + NewTickets(order, orderId, reservation, refs) else old(tickets)
    {
      var rows := tickets;
      ghost var made := NewTickets(order, orderId, reservation, refs);
      for i := 0 to |refs|
        invariant tickets == old(tickets) && rows == tickets + made[..i]
        invariant FreshRefs(tickets, refs[..i])
      {
        var ticket := Ticket(order.userId, orderId, BucketKey(order.eventId, reservation.key.ticketTypeId), refs[i]);
        inserted := InsertTicket(rows, ticket);
        FreshOneMore(tickets, refs, made, i);
        if !inserted {
          FreshPrefix(tickets, refs, i + 1);
          return false;
        }
        rows := rows + [ticket];
        assert made[..i + 1] == made[..i] + [ticket];
      }
      assert refs[..|refs|] == refs && made[..|refs|] == made;
      tickets := rows;
      return true;
    }

    method IncrementSoldCount(key: BucketKey, delta: int)
      requires key in buckets
      modifies this`buckets
      ensures buckets == old(buckets)[key := old(buckets)[key].(soldCount := old(buckets)[key].soldCount + delta)]
    {
      buckets := buckets[key := buckets[key].(soldCount := buckets[key].soldCount + delta)];
    }

    method IssueWithReferences(orderId: nat, refs: seq<TicketRef>) returns (result: Result<nat>)
      modifies this
      ensures (View(), result) == Issue(old(View()), orderId, refs)
    {
      var loaded := LoadValidatedOrderReservation(orderId);
      if loaded.Err? {
        return Err(loaded.error);
      }
      var order := orders[orderId];
      var reservation := reservations[loaded.value];
      if reservation.quantity != |refs| {
        return Err(InvalidState);
      }
      if reservation.key !in buckets {
        return Err(NotFound);
      }
      var inserted := InsertTickets(order, orderId, reservation, refs);
      if !inserted {
        return Err(UniqueViolation);
      }
      UpdateReservationStatus(loaded.value, Consumed);
      var remainingReserved := LiveSum(reservations, reservation.key, now);
      UpdateReservedCount(reservation.key, remainingReserved);
      IncrementSoldCount(reservation.key, reservation.quantity);
      assert buckets == old(buckets)[reservation.key := old(buckets)[reservation.key].(
        reservedCount := remainingReserved,
        soldCount := old(buckets)[reservation.key].soldCount + reservation.quantity)];
      orders := orders[orderId := order.(status := Fulfilled)];
      audits := audits + [TicketsIssued(orderId, loaded.value, reservation.quantity)];
      return Ok(loaded.value);
    }

    // Five attempts with new references; a unique conflict, or any known
    // database error, starts the next one.
    method AllocateBatch(
      orderId: nat, count: nat, gen: (nat, nat) -> TicketRef, faults: nat -> Fault, others: nat -> seq<Step>)
      returns (result: Result<nat>)
      modifies this
      ensures (View(), result) == Attempts(old(View()), IssueWriter(orderId, count, gen), faults, others, 0)
    {
      for attempt := 0 to MAX_ATTEMPTS
        invariant Attempts(old(View()), IssueWriter(orderId, count, gen), faults, others, 0)
                  == Attempts(View(), IssueWriter(orderId, count, gen), faults, others, attempt)
      {
        Interleave(others(attempt));
        IssueErrKeepsStore(View(), orderId, Batch(count, gen, attempt));
        if faults(attempt).NoFault? {
          result := IssueWithReferences(orderId, Batch(count, gen, attempt));
          if result != Err(UniqueViolation) {
            return;
          }
        } else if faults(attempt).OtherFault? {
          return Err(DatabaseError);
        }
      }
      return Err(AllocationFailed);
    }

    method IssueTickets(
      orderId: nat, gen: (nat, nat) -> TicketRef, faults: nat -> Fault, others: nat -> seq<Step>)
      returns (result: Result<nat>)
      modifies this
      ensures (View(), result) == ExecuteIssue(old(View()), orderId, gen, faults, others)
    {
      var loaded := LoadValidatedOrderReservation(orderId);
      if loaded.Err? {
        return Err(loaded.error);
      }
      result := AllocateBatch(orderId, reservations[loaded.value].quantity, gen, faults, others);
    }
  }
}
