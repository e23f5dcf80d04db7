// Idempotent order creation: one order per (actor, key), replayed on request.
module Checkout {
  import opened Store
  import opened Wrappers

  ghost predicate RecordNamesOrder(s: Tables, k: IdempotencyKey)
    requires k in s.idempotency
  {
    var rec := s.idempotency[k];
    && rec.responseBody.Some?
    && rec.responseBody.value.status == Reserved
    && var id := rec.responseBody.value.orderId;
       && id < |s.orders|
       && rec.requestHash.idempotencyKey == k.key
       && var o := s.orders[id];
          && o.userId == k.actorUserId
          && o.reservationId == Some(rec.requestHash.reservationId)
          && o.totalAmount == rec.requestHash.totalAmount
          && o.currency == rec.requestHash.currency
  }

  ghost predicate HasRecord(s: Tables, i: nat) {
    exists k :: k in s.idempotency && s.idempotency[k].responseBody == Some(OrderResponse(i, Reserved))
  }

  // Every record carries a response that names an order of its actor made from
  // the recorded request, and records and orders match one to one.
  ghost predicate Inv(s: Tables) {
    && (forall k :: k in s.idempotency ==> RecordNamesOrder(s, k))
    && (forall j, k :: j in s.idempotency && k in s.idempotency && j != k ==>
          s.idempotency[j].responseBody != s.idempotency[k].responseBody)
    && (forall i :: 0 <= i < |s.orders| ==> HasRecord(s, i))
  }

  // Apart from their status, existing orders and all records stay as they are.
  ghost predicate KeepsOrders(s: Tables, s': Tables) {
    && |s.orders| <= |s'.orders|
    && (forall i :: 0 <= i < |s.orders| ==> s'.orders[i] == s.orders[i].(status := s'.orders[i].status))
    && (forall k :: k in s.idempotency ==> k in s'.idempotency && s'.idempotency[k] == s.idempotency[k])
  }

  // The rest of the tables makes no difference here.
  lemma SameOrders(s: Tables, s': Tables)
    requires s'.orders == s.orders && s'.idempotency == s.idempotency
    ensures KeepsOrders(s, s')
  {
  }

  lemma VerifyKeepsOrders(
    s: Tables, provider: Provider, ref: string, success: bool, currency: string, v: Verification)
    ensures var s' := VerifyPayment(s, provider, ref, success, currency, v).0;
            KeepsOrders(s, s') && s'.idempotency == s.idempotency && |s'.orders| == |s.orders|
  {
  }

  lemma IssueKeepsOrders(s: Tables, lag: nat, orderId: nat, refs: seq<TicketRef>)
    ensures var s' := Next(s, StepIssue(lag, orderId, refs));
            KeepsOrders(s, s') && s'.idempotency == s.idempotency && |s'.orders| == |s.orders|
  {
  }

  lemma OtherStepsKeepOrders(s: Tables, step: Step)
    requires !step.StepCreateOrder?
    ensures KeepsOrders(s, Next(s, step))
    ensures Next(s, step).idempotency == s.idempotency && |Next(s, step).orders| == |s.orders|
  {
    match step
    case StepVerifyPayment(provider, ref, success, currency, v) =>
      VerifyKeepsOrders(s, provider, ref, success, currency, v);
    case StepIssue(lag, orderId, refs) => IssueKeepsOrders(s, lag, orderId, refs);
    case _ => SameOrders(s, Next(s, step));
  }

  lemma CreateKeepsOrders(s: Tables, appNow: int, actor: nat, req: Request, allowed: bool)
    ensures KeepsOrders(s, CreateOrder(s, appNow, actor, req, allowed).0)
  {
  }

  lemma KeptOrdersKeepInv(s: Tables, s': Tables)
    requires Inv(s) && KeepsOrders(s, s') && s'.idempotency == s.idempotency && |s'.orders| == |s.orders|
    ensures Inv(s')
  {
    forall k | k in s'.idempotency ensures RecordNamesOrder(s', k) {
      assert RecordNamesOrder(s, k);
    }
    forall i | 0 <= i < |s'.orders| ensures HasRecord(s', i) {
      assert HasRecord(s, i);
    }
  }

  lemma CreateKeepsInv(s: Tables, appNow: int, actor: nat, req: Request, allowed: bool)
    requires Inv(s)
    ensures Inv(CreateOrder(s, appNow, actor, req, allowed).0)
  {
    var (s', out) := CreateOrder(s, appNow, actor, req, allowed);
    var key := IdempotencyKey(actor, req.idempotencyKey);
    if out.Ok? && key !in s.idempotency {
      var id := |s.orders|;
      forall k | k in s'.idempotency ensures RecordNamesOrder(s', k) {
        if k != key { assert RecordNamesOrder(s, k); }
      }
      forall j, k | j in s'.idempotency && k in s'.idempotency && j != k
        ensures s'.idempotency[j].responseBody != s'.idempotency[k].responseBody
      {
        if j != key { assert RecordNamesOrder(s, j); }
        if k != key { assert RecordNamesOrder(s, k); }
      }
      forall i | 0 <= i < |s'.orders| ensures HasRecord(s', i) {
        if i < id {
          assert HasRecord(s, i);
          var k :| k in s.idempotency && s.idempotency[k].responseBody == Some(OrderResponse(i, Reserved));
          assert k in s'.idempotency && s'.idempotency[k] == s.idempotency[k];
        } else {
          assert s'.idempotency[key].responseBody == Some(OrderResponse(i, Reserved));
        }
      }
    }
  }

  lemma StepKeepsInv(s: Tables, step: Step)
    requires Inv(s)
    ensures Inv(Next(s, step)) && KeepsOrders(s, Next(s, step))
  {
    if step.StepCreateOrder? {
      CreateKeepsInv(s, step.appNow, step.actor, step.req, step.checkoutAllowed);
      CreateKeepsOrders(s, step.appNow, step.actor, step.req, step.checkoutAllowed);
    } else {
      OtherStepsKeepOrders(s, step);
      KeptOrdersKeepInv(s, Next(s, step));
    }
  }

  lemma {:induction false} OrdersMatchRecords(s: Tables, steps: seq<Step>)
    requires Initial(s)
    ensures Inv(Run(s, steps))
  {
    if |steps| != 0 {
      OrdersMatchRecords(s, steps[..|steps| - 1]);
      StepKeepsInv(Run(s, steps[..|steps| - 1]), steps[|steps| - 1]);
    }
  }

  lemma {:induction false} RecordsSurvive(s: Tables, steps: seq<Step>)
    requires Inv(s)
    ensures Inv(Run(s, steps)) && KeepsOrders(s, Run(s, steps))
  {
    if |steps| != 0 {
      RecordsSurvive(s, steps[..|steps| - 1]);
      StepKeepsInv(Run(s, steps[..|steps| - 1]), steps[|steps| - 1]);
    }
  }

  predicate Live(s: Tables, appNow: int, actor: nat, reservationId: nat) {
    && reservationId < |s.reservations|
    && s.reservations[reservationId].ownerUserId == actor
    && s.reservations[reservationId].status == Held
    && s.reservations[reservationId].expiresAt > appNow
  }

  // A request whose key is taken never changes anything; it is answered exactly
  // when the payload is the recorded one, the reservation is still live and
  // checkout is allowed, and the answer is then the recorded order.
  lemma ReplayAnswersRecord(s: Tables, appNow: int, actor: nat, req: Request, allowed: bool)
    requires Inv(s) && IdempotencyKey(actor, req.idempotencyKey) in s.idempotency
    ensures var rec := s.idempotency[IdempotencyKey(actor, req.idempotencyKey)];
            var (s', out) := CreateOrder(s, appNow, actor, req, allowed);
            && s' == s
            && (out.Ok? <==> rec.requestHash == req && Live(s, appNow, actor, req.reservationId) && allowed)
            && (out.Ok? ==>
                  && Some(out.value) == rec.responseBody
                  && out.value.orderId < |s.orders|
                  && s.orders[out.value.orderId].userId == actor
                  && s.orders[out.value.orderId].reservationId == Some(req.reservationId))
            && (rec.requestHash != req ==> out == Err(IdempotencyConflict))
  {
    assert RecordNamesOrder(s, IdempotencyKey(actor, req.idempotencyKey));
  }

  // An accepted request, repeated after any run, gets the same order as long as
  // its reservation is still live, and never a second order.
  lemma ReplayAfterAnyRun(s: Tables, actor: nat, req: Request, first: int, steps: seq<Step>, second: int)
    requires Inv(s) && CreateOrder(s, first, actor, req, true).1.Ok?
    ensures var (s1, out1) := CreateOrder(s, first, actor, req, true);
            var s2 := Run(s1, steps);
            var (s3, out2) := CreateOrder(s2, second, actor, req, true);
            && s3 == s2
            && (Live(s2, second, actor, req.reservationId) <==> out2.Ok?)
            && (out2.Ok? ==> out2 == out1)
  {
    var (s1, out1) := CreateOrder(s, first, actor, req, true);
    var key := IdempotencyKey(actor, req.idempotencyKey);
    CreateKeepsInv(s, first, actor, req, true);
    assert key in s1.idempotency && s1.idempotency[key] == IdempotencyRecord(req, Some(out1.value));
    RecordsSurvive(s1, steps);
    ReplayAnswersRecord(Run(s1, steps), second, actor, req, true);
  }
}
