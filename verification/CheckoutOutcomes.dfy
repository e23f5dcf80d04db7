// What each checkout transaction accepts, answers and writes, on the rows.
module CheckoutOutcomes {
  import opened Totals
  import opened Store
  import opened Wrappers
  import opened Issuance
  import Checkout
  import Inventory

  /******* Counting *******/

  // A row counts against its bucket while it is HELD and until the very instant it
  // expires; from that instant on it is stale.
  lemma CountedUntilExpiry(rows: seq<Reservation>, r: Reservation, key: BucketKey, at: int)
    ensures LiveSum([], key, at) == 0
    ensures LiveSum(rows + [r], key, at)
            == LiveSum(rows, key, at) + if r.key == key && r.status == Held && at < r.expiresAt then r.quantity else 0
    ensures r.status == Held ==> (Stale(r, at) <==> r.expiresAt <= at)
    ensures r.status != Held ==> !Stale(r, at)
  {
    Inventory.LiveSumAppend(rows, r, key, at);
  }

  /******* Reserve *******/

  // What the cache says is left of a bucket.
  function CachedFree(b: Bucket): int { b.capacityTotal - b.reservedCount - b.soldCount }

  // With a cache that does not undercount, as in every run: a request is accepted
  // exactly when it fits the live sum, and besides either fits the cache or meets a
  // bucket with no more than 50 tickets, or a twentieth, left.
  lemma ReserveAcceptsIff(
    s: Tables, appNow: int, actor: nat, key: BucketKey, quantity: int, ttl: int)
    requires Inventory.CacheCovers(s) && key in s.buckets
    ensures var b := s.buckets[key];
            Reserve(s, appNow, actor, key, quantity, ttl).1.Ok?
            <==> quantity > 0 && ttl > 0
                 && quantity <= b.capacityTotal - b.soldCount - LiveSum(s.reservations, key, s.now)
                 && (quantity <= CachedFree(b) || CachedFree(b) <= 50 || 20 * CachedFree(b) <= b.capacityTotal)
  {
  }

  lemma ReserveRefusal(s: Tables, appNow: int, actor: nat, key: BucketKey, quantity: int, ttl: int)
    requires Reserve(s, appNow, actor, key, quantity, ttl).1.Err?
    ensures var (s', out) := Reserve(s, appNow, actor, key, quantity, ttl);
            && s' == s
            && out.error == if quantity <= 0 || ttl <= 0 then InvalidInput
                            else if key !in s.buckets then NotFound
                            else Unavailable
  {
  }

  // The hold lasts ttl seconds on the clock of the process; the bucket counts it on
  // top of what it held, recounted when it was nearly full.
  lemma ReserveWrites(s: Tables, appNow: int, actor: nat, key: BucketKey, quantity: int, ttl: int)
    requires Reserve(s, appNow, actor, key, quantity, ttl).1.Ok?
    ensures var (s', out) := Reserve(s, appNow, actor, key, quantity, ttl);
            && key in s.buckets && quantity > 0
            && out.value == |s.reservations|
            && s'.reservations == s.reservations + [Reservation(actor, key, quantity, Held, appNow + 1000 * ttl)]
            && s'.buckets.Keys == s.buckets.Keys
            && (forall k :: k in s.buckets && k != key ==> s'.buckets[k] == s.buckets[k])
            && var b, b' := s.buckets[key], s'.buckets[key];
               && b'.capacityTotal == b.capacityTotal && b'.soldCount == b.soldCount
               && b'.reservedCount
                  == quantity + (if CachedFree(b) > 50 && 20 * CachedFree(b) > b.capacityTotal
                                 then b.reservedCount
                                 else LiveSum(s.reservations, key, s.now))
  {
  }

  lemma ReserveKeepsTheRest(s: Tables, appNow: int, actor: nat, key: BucketKey, quantity: int, ttl: int)
    requires Reserve(s, appNow, actor, key, quantity, ttl).1.Ok?
    ensures var s' := Reserve(s, appNow, actor, key, quantity, ttl).0;
            && s'.orders == s.orders && s'.idempotency == s.idempotency && s'.payments == s.payments
            && s'.ledger == s.ledger && s'.tickets == s.tickets && s'.releases == s.releases
            && s'.audits == s.audits + [InventoryReserved(|s.reservations|)]
  {
  }

  /******* Release, reconcile, sweep *******/

  // A release goes ahead exactly on a row that is HELD and expired on the caller's
  // clock, and its read writes nothing.
  lemma ReleaseBeginsIff(s: Tables, pid: nat, id: nat, requestNow: int)
    requires pid !in s.releases
    ensures var (s', out) := BeginRelease(s, pid, id, requestNow);
            && (out == Err(NotFound) <==> id >= |s.reservations|)
            && (out == Ok(true) <==> id < |s.reservations| && s.reservations[id].status == Held
                                     && s.reservations[id].expiresAt <= requestNow)
            && (out == Ok(true) || out == Ok(false) || out == Err(NotFound))
            && s' == s.(releases := s'.releases)
            && s'.releases == if out == Ok(true)
                              then s.releases[pid := PendingRelease(id, s.reservations[id].key, s.now)]
                              else s.releases
  {
  }

  // Its commit expires that row, whatever the row has become, and stores the count
  // it takes beforehand.
  lemma ReleaseWrites(s: Tables, pid: nat)
    requires pid in s.releases
    ensures var (s', out) := CommitRelease(s, pid); var p := s.releases[pid];
            && s'.releases == s.releases - {pid}
            && (out == Ok(true) <==> p.key in s.buckets && p.id < |s.reservations|)
            && (out != Ok(true) ==> out == Err(NotFound) && s' == s.(releases := s'.releases))
            && (out == Ok(true) ==>
                  && s' == s.(releases := s'.releases, reservations := s'.reservations, buckets := s'.buckets)
                  && s'.reservations == s.reservations[p.id := s.reservations[p.id].(status := Expired)]
                  && s'.buckets.Keys == s.buckets.Keys
                  && s'.buckets[p.key]
                     == s.buckets[p.key].(reservedCount := LiveSum(s.reservations, p.key, p.began))
                  && forall k :: k in s.buckets && k != p.key ==> s'.buckets[k] == s.buckets[k])
  {
  }

  lemma ReconcileWrites(s: Tables, key: BucketKey)
    ensures var (s', out) := Reconcile(s, key);
            && (out.Err? <==> key !in s.buckets) && (out.Err? ==> out.error == NotFound && s' == s)
            && s' == s.(buckets := s'.buckets) && s'.buckets.Keys == s.buckets.Keys
            && (forall k :: k in s.buckets && k != key ==> s'.buckets[k] == s.buckets[k])
            && (key in s.buckets ==>
                  && s'.buckets[key].soldCount == s.buckets[key].soldCount
                  && s'.buckets[key].capacityTotal == s.buckets[key].capacityTotal
                  && (out == Ok(true) <==> s.buckets[key].reservedCount != LiveSum(s.reservations, key, s.now)))
  {
    if key in s.buckets && s.buckets[key].reservedCount == LiveSum(s.reservations, key, s.now) {
      assert s.buckets[key].(reservedCount := LiveSum(s.reservations, key, s.now)) == s.buckets[key];
    }
  }

  // A sweep expires the rows it claimed and no others, logs each once, and gives up
  // as a whole if one of them has no bucket.
  lemma SweepWrites(s: Tables, claim: seq<nat>)
    requires IsClaim(s, claim)
    ensures var (s', out) := Sweep(s, claim);
            && (out.Ok? <==> forall i :: 0 <= i < |claim| ==> s.reservations[claim[i]].key in s.buckets)
            && (out.Err? ==> out.error == NotFound && s' == s)
            && (out.Ok? ==>
                  && out.value == claim
                  && s' == s.(reservations := s'.reservations, buckets := s'.buckets, audits := s'.audits)
                  && |s'.reservations| == |s.reservations|
                  && (forall id: nat :: id < |s.reservations| ==>
                        s'.reservations[id]
                        == if id in claim then s.reservations[id].(status := Expired) else s.reservations[id])
                  && |s'.audits| == |s.audits| + |claim| && s'.audits[..|s.audits|] == s.audits
                  && forall i :: 0 <= i < |claim| ==> s'.audits[|s.audits| + i] == ReservationExpired(claim[i]))
  {
  }

  /******* Create order *******/

  predicate MayOrder(s: Tables, appNow: int, actor: nat, req: Request, allowed: bool) {
    && req.reservationId < |s.reservations|
    && s.reservations[req.reservationId].ownerUserId == actor
    && s.reservations[req.reservationId].status == Held
    && appNow < s.reservations[req.reservationId].expiresAt
    && allowed
  }

  // A first request is accepted exactly when the reservation is the actor's own,
  // HELD and unexpired, and checkout is allowed.
  lemma FirstOrderIff(s: Tables, appNow: int, actor: nat, req: Request, allowed: bool)
    requires IdempotencyKey(actor, req.idempotencyKey) !in s.idempotency
    ensures CreateOrder(s, appNow, actor, req, allowed).1.Ok? <==> MayOrder(s, appNow, actor, req, allowed)
  {
  }

  // The new order copies the request and belongs to the actor.
  lemma FirstOrderWrites(s: Tables, appNow: int, actor: nat, req: Request, allowed: bool)
    requires IdempotencyKey(actor, req.idempotencyKey) !in s.idempotency
    requires CreateOrder(s, appNow, actor, req, allowed).1.Ok?
    ensures var (s', out) := CreateOrder(s, appNow, actor, req, allowed);
            && req.reservationId < |s.reservations|
            && out == Ok(OrderResponse(|s.orders|, Reserved))
            && s'.orders == s.orders + [Order(actor, s.reservations[req.reservationId].key.eventId,
                                              Some(req.reservationId), req.totalAmount, req.currency, Reserved)]
            && s'.idempotency == s.idempotency[IdempotencyKey(actor, req.idempotencyKey) :=
                                                 IdempotencyRecord(req, Some(OrderResponse(|s.orders|, Reserved)))]
            && s' == s.(orders := s'.orders, idempotency := s'.idempotency,
                        audits := s.audits + [OrderCreated(|s.orders|)])
  {
  }

  // Every refusal, of a first request or of a repeated one.
  lemma OrderRefusal(s: Tables, appNow: int, actor: nat, req: Request, allowed: bool)
    requires CreateOrder(s, appNow, actor, req, allowed).1.Err?
    ensures var (s', out) := CreateOrder(s, appNow, actor, req, allowed);
            var key := IdempotencyKey(actor, req.idempotencyKey);
            && s' == s
            && out.error ==
               if key in s.idempotency && s.idempotency[key].requestHash != req then IdempotencyConflict
               else if req.reservationId >= |s.reservations| then NotFound
               else if s.reservations[req.reservationId].ownerUserId != actor then NotFound
               else if MayOrder(s, appNow, actor, req, allowed) then IdempotencyConflict
               else InvalidState
  {
  }

  /******* Verify payment *******/

  // The payment a provider reference stands for, and no other.
  ghost predicate IsPayment(s: Tables, id: nat, provider: Provider, ref: string) {
    && id < |s.payments| && s.payments[id].provider == provider && s.payments[id].providerRef == ref
    && forall j :: 0 <= j < |s.payments| && j != id ==>
         s.payments[j].provider != provider || s.payments[j].providerRef != ref
  }

  // The answer is about this payment and what the caller took it for.
  predicate Agrees(s: Tables, id: nat, success: bool, currency: string, v: Verification)
    requires id < |s.payments|
  {
    && v.currency == currency && (success ==> v.status == ProviderSuccess)
    && s.payments[id].orderId < |s.orders|
    && v.amountMinor == s.payments[id].amount && v.currency == s.orders[s.payments[id].orderId].currency
  }

  // It is booked exactly when it agrees and the payment is not settled yet.
  lemma PaymentVerifiedIff(
    s: Tables, id: nat, provider: Provider, ref: string, success: bool, currency: string, v: Verification)
    requires IsPayment(s, id, provider, ref)
    ensures VerifyPayment(s, provider, ref, success, currency, v).1.Ok?
       <==> Agrees(s, id, success, currency, v)
            && s.payments[id].status != Success && s.payments[id].status != Reversed
            && s.payments[id].status != Refunded
  {
  }

  lemma PaymentRefusal(s: Tables, provider: Provider, ref: string, success: bool, currency: string, v: Verification)
    requires VerifyPayment(s, provider, ref, success, currency, v).1.Err?
    ensures VerifyPayment(s, provider, ref, success, currency, v).0 == s
    ensures var e := VerifyPayment(s, provider, ref, success, currency, v).1.error;
            if v.currency != currency || (success && v.status != ProviderSuccess) then e == InvalidState
            else if forall j :: 0 <= j < |s.payments| ==>
                      s.payments[j].provider != provider || s.payments[j].providerRef != ref then e == NotFound
            else forall id: nat :: IsPayment(s, id, provider, ref) ==>
                   e == if s.payments[id].status.Success? || s.payments[id].status.Reversed?
                           || s.payments[id].status.Refunded? then AlreadyProcessed
                        else if s.payments[id].orderId >= |s.orders| then NotFound
                        else InvalidState
  {
  }

  // What the provider's word does to the payment and to its order.
  ghost predicate Reflects(v: ProviderStatus, p: PaymentStatus, o: OrderStatus) {
    && (v == ProviderSuccess ==> p == Success && o == Paid)
    && (v == ProviderPending ==> p == Pending && o == PaymentPending)
    && (v == ProviderFailed ==> p == Failed && o == OrderFailed)
    && (v == ProviderReversed ==> p == Reversed && o == OrderFailed)
    && (v == ProviderRefunded ==> p == Refunded && o == OrderFailed)
  }

  lemma PaymentVerifiedWrites(
    s: Tables, id: nat, provider: Provider, ref: string, success: bool, currency: string, v: Verification)
    requires IsPayment(s, id, provider, ref) && VerifyPayment(s, provider, ref, success, currency, v).1.Ok?
    ensures var (s', out) := VerifyPayment(s, provider, ref, success, currency, v); var oid := s.payments[id].orderId;
            && oid < |s.orders| == |s'.orders| && id < |s'.payments|
            && Reflects(v.status, out.value, s'.orders[oid].status)
            && s'.payments == s.payments[id := s.payments[id].(status := out.value)]
            && s'.orders == s.orders[oid := s.orders[oid].(status := s'.orders[oid].status)]
            && s'.ledger == (if v.status == ProviderSuccess
                             then s.ledger + [LedgerEntry(oid, id, Credit, s.payments[id].amount,
                                                          s.orders[oid].currency)]
                             else s.ledger)
            && s' == s.(payments := s'.payments, orders := s'.orders, ledger := s'.ledger,
                        audits := s.audits + [PaymentVerified(id)])
  {
  }

  ghost predicate PaymentsDistinct(payments: seq<Payment>) {
    forall i, j :: 0 <= i < j < |payments| ==>
      payments[i].provider != payments[j].provider || payments[i].providerRef != payments[j].providerRef
  }

  lemma StepKeepsPaymentsDistinct(s: Tables, step: Step)
    requires PaymentsDistinct(s.payments)
    ensures PaymentsDistinct(Next(s, step).payments)
  {
  }

  // In every run a provider reference stands for one payment at most, so the three
  // lemmas above speak of every payment there is.
  lemma {:induction false} EveryPaymentIsOne(s: Tables, steps: seq<Step>, id: nat)
    requires Initial(s)
    ensures var t := Run(s, steps);
            && PaymentsDistinct(t.payments)
            && (id < |t.payments| ==> IsPayment(t, id, t.payments[id].provider, t.payments[id].providerRef))
  {
    if |steps| != 0 {
      EveryPaymentIsOne(s, steps[..|steps| - 1], id);
      StepKeepsPaymentsDistinct(Run(s, steps[..|steps| - 1]), steps[|steps| - 1]);
    }
  }

  /******* The attempts of an allocation *******/

  // A unique conflict or a known database error.
  predicate Conflicts(fault: Fault, out: Result<nat>) {
    fault == KnownRequestError || (fault == NoFault && out == Err(UniqueViolation))
  }

  // The first attempt, of at most five, that no conflict ends decides the call.
  lemma {:induction false} AttemptDecides(
    s: Tables, writer: Writer, faults: nat -> Fault, others: nat -> seq<Step>, from: nat, k: nat)
    requires from <= k < 5
    requires forall j :: from <= j < k ==> Conflicts(faults(j), writer(Found(s, others, from, j), j).1)
    ensures var t := Found(s, others, from, k); var out := writer(t, k);
            var called := Attempts(s, writer, faults, others, from);
            && (faults(k) == NoFault && out.1 != Err(UniqueViolation) ==> called == out)
            && (faults(k) == OtherFault ==> called == (t, Err(DatabaseError)))
            && (k == 4 && Conflicts(faults(k), out.1) ==> called == (t, Err(AllocationFailed)))
    decreases k - from
  {
    var t := Run(s, others(from));
    assert Found(s, others, from, from) == t;
    if from < k {
      assert Conflicts(faults(from), writer(Found(s, others, from, from), from).1);
      forall j | from + 1 <= j < k ensures Conflicts(faults(j), writer(Found(t, others, from + 1, j), j).1) {
        assert Found(s, others, from, j) == Found(t, others, from + 1, j);
      }
      AttemptDecides(t, writer, faults, others, from + 1, k);
    }
  }
}
